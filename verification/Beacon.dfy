/** The beacon template for the firmware (smd.c, hal.h). The firmware expects a partial virtual
    bitmap of six octets in the TIM element, and the driver pads a shorter one in place. The
    elements and the TIM are those of IEEE 802.11-2012, section 8.4.2. */
module Beacon {
  import opened Common
  import opened Bytes

  const BEACON_TEMPLATE_SIZE := 0x17C
  const TIM_MIN_PVM_SIZE := 6
  const TIM_ID := 5

  /* ---- Information elements ---- */

  datatype Element = Element(id: byte, body: seq<byte>)

  /** The length of the element at the front. */
  function FirstLen(s: seq<byte>): (n: nat)
    requires 2 <= |s|
  {
    var len: int := s[1];
    2 + len
  }

  /** The elements in `s`, if it consists of whole elements. */
  function Parse(s: seq<byte>): (r: Option<seq<Element>>)
    decreases |s|
  {
    if s == [] then Some([])
    else if |s| < 2 || |s| < FirstLen(s) then None
    else
      var rest := Parse(s[FirstLen(s)..]);
      if rest.None? then None
      else Some([Element(s[0], s[2..FirstLen(s)])] + rest.value)
  }

  function ElementBytes(e: Element): (s: seq<byte>)
    requires |e.body| < 0x100
    ensures |s| == 2 + |e.body|
  {
    [e.id, |e.body|] + e.body
  }

  lemma ParseCons(e: Element, rest: seq<byte>)
    requires |e.body| < 0x100
    ensures Parse(ElementBytes(e) + rest)
         == if Parse(rest).Some? then Some([e] + Parse(rest).value) else None
  {
    var s := ElementBytes(e) + rest;
    assert FirstLen(s) == 2 + |e.body|;
    assert s[2..FirstLen(s)] == e.body && s[FirstLen(s)..] == rest;
  }

  /** A stream that can be parsed and is not empty starts with an element. */
  lemma ParseSplit(s: seq<byte>) returns (e: Element, rest: seq<byte>)
    requires s != [] && Parse(s).Some?
    ensures |e.body| < 0x100 && s == ElementBytes(e) + rest && Parse(rest).Some?
    ensures Parse(s).value == [e] + Parse(rest).value
  {
    var n := FirstLen(s);
    e, rest := Element(s[0], s[2..n]), s[n..];
  }

  /** What parsing a concatenation gives: both parts, or nothing. */
  ghost function Joined(a: seq<Element>, b: Option<seq<Element>>): Option<seq<Element>> {
    if b.Some? then Some(a + b.value) else None
  }

  lemma {:induction false} ParseConcat(a: seq<byte>, b: seq<byte>)
    requires Parse(a).Some?
    ensures Parse(a + b) == Joined(Parse(a).value, Parse(b))
    decreases |a|
  {
    if a == [] {
      assert a + b == b;
      assert Parse(b).Some? ==> [] + Parse(b).value == Parse(b).value;
    } else {
      var e, rest := ParseSplit(a);
      ParseConcat(rest, b);
      ParsePrepend(e, rest, b, Parse(rest).value);
    }
  }

  lemma ParsePrepend(e: Element, rest: seq<byte>, b: seq<byte>, es: seq<Element>)
    requires |e.body| < 0x100 && Parse(rest + b) == Joined(es, Parse(b))
    ensures Parse(ElementBytes(e) + rest + b) == Joined([e] + es, Parse(b))
  {
    ParseCons(e, rest + b);
    assert ElementBytes(e) + rest + b == ElementBytes(e) + (rest + b);
    assert Parse(b).Some? ==> [e] + (es + Parse(b).value) == ([e] + es) + Parse(b).value;
  }

  /** A proper prefix that consists of whole elements has fewer of them. */
  lemma {:induction false} PrefixHasFewer(p: seq<byte>, s: seq<byte>)
    requires p < s && Parse(p).Some? && Parse(s).Some?
    ensures |Parse(p).value| < |Parse(s).value|
    decreases |p|
  {
    if p != [] {
      var n := FirstLen(p);
      assert p[n..] < s[n..];
      PrefixHasFewer(p[n..], s[n..]);
    }
  }

  /* ---- The TIM element ---- */

  /** Bit `i` of an octet. */
  predicate Bit(b: byte, i: nat) {
    (match i case 0 => b case 1 => b / 2 case 2 => b / 4 case 3 => b / 8 case 4 => b / 16
             case 5 => b / 32 case 6 => b / 64 case _ => b / 128) % 2 == 1
  }

  /** The body of a TIM: DTIM count, DTIM period, bitmap control, partial virtual bitmap. */
  predicate IsTim(body: seq<byte>) {
    3 <= |body|
  }

  /** Whether the TIM indicates traffic for association id `aid`. The bitmap starts at octet N1 of
      the traffic indication map, which bits 1 to 7 of the bitmap control give in units of two. */
  predicate Indicates(body: seq<byte>, aid: nat)
    requires IsTim(body)
  {
    var n1 := body[2] / 2 * 2;
    n1 <= aid / 8 < n1 + |body| - 3 && Bit(body[3 + aid / 8 - n1], aid % 8)
  }

  /** The same DTIM count, DTIM period and bitmap control (with the group traffic bit), and traffic
      for the same stations. */
  ghost predicate SameMeaning(body: seq<byte>, body': seq<byte>) {
    && IsTim(body) && IsTim(body') && body'[..3] == body[..3]
    && forall aid: nat :: Indicates(body', aid) <==> Indicates(body, aid)
  }

  /** The two streams have the same elements except for element `i`, a TIM: in the second stream
      it has a bitmap of six octets and means the same. */
  ghost predicate PreservesElements(s: seq<byte>, s': seq<byte>, i: nat) {
    && Parse(s).Some? && Parse(s').Some?
    && var es, es' := Parse(s).value, Parse(s').value;
    && |es'| == |es| && i < |es|
    && (forall j :: 0 <= j < |es| && j != i ==> es'[j] == es[j])
    && es'[i].id == es[i].id == TIM_ID && SameMeaning(es[i].body, es'[i].body)
    && |es'[i].body| == 9
  }

  lemma PaddedTimMeansTheSame(body: seq<byte>, pad: nat)
    requires IsTim(body)
    ensures SameMeaning(body, body + Zeros(pad))
  {
    var body' := body + Zeros(pad);
    forall aid: nat ensures Indicates(body', aid) <==> Indicates(body, aid) {
      var at := 3 + aid / 8 - body[2] / 2 * 2;
      if |body| <= at < |body'| {
        assert body'[at] == 0;
      }
    }
  }

  /* ---- The template ---- */

  /** A beacon: a fixed part of `fixed` bytes, elements, a TIM at `timOff`, and elements. */
  predicate WfBeacon(data: seq<byte>, fixed: nat, timOff: nat) {
    && fixed <= timOff && timOff + 5 <= |data|
    && data[timOff] == TIM_ID && 3 <= data[timOff + 1] && timOff + 2 + data[timOff + 1] <= |data|
    && Parse(data[fixed..timOff]).Some?
    && Parse(data[timOff + 2 + data[timOff + 1]..]).Some?
  }

  /** `pvm_len`, the length of the partial virtual bitmap. */
  function PvmLen(data: seq<byte>, timOff: nat): int
    requires timOff + 1 < |data|
  {
    var len: int := data[timOff + 1];
    len - 3
  }

  function Pad(data: seq<byte>, timOff: nat, mesh: bool): int
    requires timOff + 1 < |data|
  {
    if mesh then 0 else TIM_MIN_PVM_SIZE - PvmLen(data, timOff)
  }

  /** The beacon with `pad` zero octets behind the TIM and the TIM's length increased by as many. */
  function Padded(data: seq<byte>, timOff: nat, pad: nat): (s: seq<byte>)
    requires timOff + 1 < |data| && timOff + 2 + data[timOff + 1] <= |data|
    requires data[timOff + 1] + pad < 0x100
    ensures |s| == |data| + pad
  {
    var end := timOff + 2 + data[timOff + 1];
    data[..timOff + 1] + [data[timOff + 1] + pad] + data[timOff + 2..end] + Zeros(pad) + data[end..]
  }

  /** The TIM ends inside the beacon. */
  predicate TimInside(data: seq<byte>, timOff: nat)
    requires timOff + 1 < |data|
  {
    timOff + 2 + data[timOff + 1] <= |data|
  }

  /** The first `beacon_length` bytes of the template. A bitmap of more than six octets makes the
      padding negative, and the length is cut. */
  function Template(data: seq<byte>, timOff: nat, mesh: bool): seq<byte>
    requires timOff + 1 < |data| && 0 <= |data| + Pad(data, timOff, mesh)
    requires Pad(data, timOff, mesh) > 0 ==> TimInside(data, timOff)
  {
    var pad := Pad(data, timOff, mesh);
    if pad > 0 then Padded(data, timOff, pad) else data[..|data| + pad]
  }

  /** The TIM with `pad` zero octets more. */
  function PaddedTim(data: seq<byte>, timOff: nat, pad: nat): Element
    requires timOff + 1 < |data| && timOff + 2 + data[timOff + 1] <= |data|
  {
    Element(TIM_ID, data[timOff + 2..timOff + 2 + data[timOff + 1]] + Zeros(pad))
  }

  /** The padded TIM stands between the elements in front of it and those behind it. */
  lemma PaddedParts(data: seq<byte>, fixed: nat, timOff: nat, pad: nat)
    requires WfBeacon(data, fixed, timOff) && data[timOff + 1] + pad < 0x100
    ensures Padded(data, timOff, pad)[fixed..]
         == data[fixed..timOff]
            + (ElementBytes(PaddedTim(data, timOff, pad)) + data[timOff + 2 + data[timOff + 1]..])
  {
  }

  lemma PaddedElements(data: seq<byte>, fixed: nat, timOff: nat, pad: nat)
    requires WfBeacon(data, fixed, timOff) && data[timOff + 1] + pad < 0x100
    ensures Parse(Padded(data, timOff, pad)[fixed..])
         == Some(Parse(data[fixed..timOff]).value
                 + ([PaddedTim(data, timOff, pad)] + Parse(data[timOff + 2 + data[timOff + 1]..]).value))
  {
    var tim, rest := PaddedTim(data, timOff, pad), data[timOff + 2 + data[timOff + 1]..];
    PaddedParts(data, fixed, timOff, pad);
    ParseCons(tim, rest);
    ParseConcat(data[fixed..timOff], ElementBytes(tim) + rest);
  }

  lemma PadNothing(data: seq<byte>, timOff: nat)
    requires timOff + 1 < |data| && timOff + 2 + data[timOff + 1] <= |data|
    ensures Padded(data, timOff, 0) == data
  {
  }

  /** The template means what the beacon means if and only if the bitmap has at most six octets.
      Here `i` is the number of elements in front of the TIM. */
  lemma PaddingPreservesBeacon(data: seq<byte>, fixed: nat, timOff: nat, i: nat)
    requires WfBeacon(data, fixed, timOff) && i == |Parse(data[fixed..timOff]).value|
    requires fixed <= |Template(data, timOff, false)|
    ensures PreservesElements(data[fixed..], Template(data, timOff, false)[fixed..], i)
            <==> data[timOff + 1] <= 9
    ensures Template(data, timOff, false)[..fixed] == data[..fixed]
  {
    var pad := Pad(data, timOff, false);
    PadNothing(data, timOff);
    PaddedElements(data, fixed, timOff, 0);
    if pad >= 0 {
      assert Template(data, timOff, false) == Padded(data, timOff, pad);
      PaddedElements(data, fixed, timOff, pad);
      OnlyTimDiffers(data, fixed, timOff, pad);
    } else {
      CutBeaconLosesElements(data, fixed, timOff);
    }
  }

  lemma OnlyTimDiffers(data: seq<byte>, fixed: nat, timOff: nat, pad: nat)
    requires WfBeacon(data, fixed, timOff) && data[timOff + 1] + pad == 3 + TIM_MIN_PVM_SIZE
    ensures PreservesElements(data[fixed..], Padded(data, timOff, pad)[fixed..], |Parse(data[fixed..timOff]).value|)
  {
    PadNothing(data, timOff);
    PaddedElements(data, fixed, timOff, 0);
    PaddedElements(data, fixed, timOff, pad);
    var body := data[timOff + 2..timOff + 2 + data[timOff + 1]];
    assert body + Zeros(0) == body;
    PaddedTimMeansTheSame(body, pad);
    OneReplaced(data[fixed..], Padded(data, timOff, pad)[fixed..], Parse(data[fixed..timOff]).value,
                Element(TIM_ID, body), Element(TIM_ID, body + Zeros(pad)),
                Parse(data[timOff + 2 + data[timOff + 1]..]).value);
  }

  lemma OneReplaced(s: seq<byte>, s': seq<byte>, before: seq<Element>, tim: Element, tim': Element,
                    after: seq<Element>)
    requires Parse(s) == Some(before + ([tim] + after)) && Parse(s') == Some(before + ([tim'] + after))
    requires tim.id == tim'.id == TIM_ID && SameMeaning(tim.body, tim'.body)
    requires |tim'.body| == 9
    ensures PreservesElements(s, s', |before|)
  {
  }

  lemma CutBeaconLosesElements(data: seq<byte>, fixed: nat, timOff: nat)
    requires WfBeacon(data, fixed, timOff) && Pad(data, timOff, false) < 0
    requires fixed <= |data| + Pad(data, timOff, false)
    ensures var s' := Template(data, timOff, false)[fixed..];
            Parse(s').Some? && Parse(data[fixed..]).Some? ==> |Parse(s').value| < |Parse(data[fixed..]).value|
  {
    var s' := Template(data, timOff, false)[fixed..];
    assert s' < data[fixed..];
    if Parse(s').Some? && Parse(data[fixed..]).Some? {
      PrefixHasFewer(s', data[fixed..]);
    }
  }

  /* ---- Building it in place ---- */

  /** `Overrun`: something would be copied or moved beyond the end of the template. */
  datatype SendBeacon = TooBig | Overrun | Message(beacon: seq<byte>, length: nat, length6: nat, timIeOffset: nat)

  /** The length check of `wcn36xx_smd_send_beacon`. The length is an unsigned number, so that a
      negative one is too large. */
  predicate PassesLengthCheck(data: seq<byte>, timOff: nat, mesh: bool)
    requires timOff + 1 < |data|
  {
    0 <= |data| + Pad(data, timOff, mesh) <= BEACON_TEMPLATE_SIZE
  }

  /** The beacon `b` octet by octet: a TIM of more than nine octets has its excess taken from the end of the
      beacon; a shorter one is nine octets long, with zeros behind its own. */
  predicate HoldsOctets(b: seq<byte>, data: seq<byte>, timOff: nat)
    requires timOff + 1 < |data|
  {
    var len: int := data[timOff + 1];
    && |b| == |data| + 9 - len
    && if 9 <= len then b == data[..|b|]
       else
         var end := timOff + 2 + len;
         && end <= |data|
         && (forall i :: 0 <= i < end ==> b[i] == if i == timOff + 1 then 9 else data[i])
         && (forall i :: end <= i < timOff + 11 ==> b[i] == 0)
         && b[timOff + 11..] == data[end..]
  }

  lemma TemplateOctets(data: seq<byte>, timOff: nat, mesh: bool)
    requires timOff + 1 < |data|
    ensures 0 <= |data| + Pad(data, timOff, mesh) && (Pad(data, timOff, mesh) > 0 ==> TimInside(data, timOff)) ==>
              if mesh then Template(data, timOff, mesh) == data
              else HoldsOctets(Template(data, timOff, mesh), data, timOff)
  {
  }

  /** The part of `wcn36xx_smd_send_beacon` that builds the message. Every write is inside the
      template, except in exactly two cases that pass the length check: a negative padding has made
      the length smaller, while the beacon itself is larger than the template; or there is a TIM to
      be padded that runs past the end of the beacon, so that a negative number of bytes behind it
      is moved. */
  method BuildBeacon(data: seq<byte>, timOff: nat, mesh: bool) returns (r: SendBeacon)
    requires timOff + 1 < |data|
    ensures r == TooBig <==> !PassesLengthCheck(data, timOff, mesh)
    ensures r == Overrun
       <==> && PassesLengthCheck(data, timOff, mesh)
            && (|data| > BEACON_TEMPLATE_SIZE || (Pad(data, timOff, mesh) > 0 && !TimInside(data, timOff)))
    ensures r.Message? ==>
              && |r.beacon| == BEACON_TEMPLATE_SIZE && r.length6 == r.length + 6
              && r.length == |data| + Pad(data, timOff, mesh) <= |r.beacon|
              && r.beacon[..r.length] == Template(data, timOff, mesh)
              && r.timIeOffset == if mesh then 256 else timOff + 4
    ensures mesh ==> (r.Message? <==> |data| <= 380) && (r == TooBig <==> |data| > 380)
    ensures mesh && r.Message? ==> r.length == |data| && r.beacon[..|data|] == data
    ensures !mesh && r.Message? ==> HoldsOctets(r.beacon[..r.length], data, timOff)
  {
    TemplateOctets(data, timOff, mesh);
    var timLen: int := data[timOff + 1];
    var pvmLen := timLen - 3;
    var pad := TIM_MIN_PVM_SIZE - pvmLen;
    if mesh {
      pad := 0;
    }
    var beaconLength := |data| + pad;
    if beaconLength < 0 || beaconLength > BEACON_TEMPLATE_SIZE {
      return TooBig;
    }
    if |data| > BEACON_TEMPLATE_SIZE || (pad > 0 && timOff + 5 + pvmLen > |data|) {
      return Overrun;
    }
    var beacon := FillTemplate(data, timOff, pad);
    r := Message(beacon, beaconLength, beaconLength + 6, if mesh then 256 else timOff + 4);
  }

  /** The template, in which the beacon has been copied and, if need be, padded. */
  method FillTemplate(data: seq<byte>, timOff: nat, pad: int) returns (beacon: seq<byte>)
    requires timOff + 1 < |data| <= BEACON_TEMPLATE_SIZE && 0 <= |data| + pad <= BEACON_TEMPLATE_SIZE
    requires pad > 0 ==> TimInside(data, timOff) && data[timOff + 1] + pad < 0x100
    ensures |beacon| == BEACON_TEMPLATE_SIZE
    ensures beacon[..|data| + pad] == if pad > 0 then Padded(data, timOff, pad) else data[..|data| + pad]
  {
    var a := new byte[BEACON_TEMPLATE_SIZE](_ => 0);
    Memcpy(a, 0, data);
    if pad > 0 {
      PadTim(a, data, timOff, pad);
    }
    beacon := a[..];
  }

  /** A beacon that is nothing but a TIM with a bitmap of seven octets and two more elements. */
  function LongBeacon(rest: nat): (data: seq<byte>)
    requires rest < 0x100
    ensures |data| == 12 + 257 + 2 + rest && data[0] == TIM_ID && data[1] == 10
  {
    ElementBytes(Element(TIM_ID, Zeros(10)))
    + (ElementBytes(Element(0, Zeros(255))) + ElementBytes(Element(0, Zeros(rest))))
  }

  lemma LongBeaconIsWellFormed(rest: nat)
    requires rest < 0x100
    ensures WfBeacon(LongBeacon(rest), 0, 0) && PvmLen(LongBeacon(rest), 0) == 7
  {
    var data := LongBeacon(rest);
    var a, b := Element(0, Zeros(255)), Element(0, Zeros(rest));
    assert data[12..] == ElementBytes(a) + ElementBytes(b);
    assert ElementBytes(b) + [] == ElementBytes(b);
    ParseCons(b, []);
    ParseCons(a, ElementBytes(b));
    assert data[0..0] == [];
  }

  /** A beacon of 381 bytes is copied into the template of 380. */
  method OverrunsTemplate() returns (data: seq<byte>, r: SendBeacon)
    ensures WfBeacon(data, 0, 0) && r == Overrun
  {
    LongBeaconIsWellFormed(110);
    data := LongBeacon(110);
    r := BuildBeacon(data, 0, false);
  }

  /** One of 281 bytes is cut, and the firmware gets a template with another meaning. */
  lemma CutBeaconExists()
    ensures var data := LongBeacon(10);
            && WfBeacon(data, 0, 0) && PassesLengthCheck(data, 0, false) && |data| <= BEACON_TEMPLATE_SIZE
            && !PreservesElements(data[0..], Template(data, 0, false)[0..], 0)
  {
    LongBeaconIsWellFormed(10);
    var data := LongBeacon(10);
    assert data[0..0] == [];
    PaddingPreservesBeacon(data, 0, 0, 0);
  }

  /** Moves what follows the TIM, clears the gap, and corrects the length of the TIM. */
  method PadTim(beacon: array<byte>, data: seq<byte>, timOff: nat, pad: nat)
    requires timOff + 1 < |data| && timOff + 2 + data[timOff + 1] <= |data|
    requires |data| + pad <= beacon.Length && beacon[..|data|] == data
    requires data[timOff + 1] + pad < 0x100
    modifies beacon
    ensures beacon[..|data| + pad] == Padded(data, timOff, pad)
  {
    var end := timOff + 2 + data[timOff + 1];
    OpenGap(beacon, data, end, pad);
    ghost var c := beacon[..];
    var len: byte := data[timOff + 1] + pad;
    beacon[timOff + 1] := len;
    assert beacon[..] == c[timOff + 1 := len];
    LengthCorrected(c, data, timOff, pad);
  }

  method OpenGap(beacon: array<byte>, data: seq<byte>, end: nat, pad: nat)
    requires end <= |data| && |data| + pad <= beacon.Length && beacon[..|data|] == data
    modifies beacon
    ensures beacon[..|data| + pad] == data[..end] + Zeros(pad) + data[end..]
  {
    ghost var b := beacon[..];
    MemmoveUp(beacon, end + pad, end, |data| - end);
    ghost var moved := beacon[..];
    MemsetZero(beacon, end, pad);
    MovedAndCleared(b, data, end, pad, moved, beacon[..]);
  }

  lemma LengthCorrected(c: seq<byte>, data: seq<byte>, timOff: nat, pad: nat)
    requires timOff + 1 < |data| && timOff + 2 + data[timOff + 1] <= |data|
    requires |data| + pad <= |c| && data[timOff + 1] + pad < 0x100
    requires var end := timOff + 2 + data[timOff + 1];
             c[..|data| + pad] == data[..end] + Zeros(pad) + data[end..]
    ensures c[timOff + 1 := data[timOff + 1] + pad][..|data| + pad] == Padded(data, timOff, pad)
  {
    var end := timOff + 2 + data[timOff + 1];
    var n := |data| + pad;
    assert c[timOff + 1 := data[timOff + 1] + pad][..n] == c[..n][timOff + 1 := data[timOff + 1] + pad];
  }

  /** The bytes after the move and the clearing of the gap. */
  lemma MovedAndCleared(b: seq<byte>, data: seq<byte>, end: nat, pad: nat, moved: seq<byte>, cleared: seq<byte>)
    requires end <= |data| && |data| + pad <= |b| && b[..|data|] == data
    requires moved == b[..end + pad] + b[end..|data|] + b[|data| + pad..]
    requires cleared == moved[..end] + Zeros(pad) + moved[end + pad..]
    ensures cleared[..|data| + pad] == data[..end] + Zeros(pad) + data[end..]
  {
  }
}
