/** The configuration entries of the start request (smd.c, hal.h): each is appended to the message
    buffer as a TLV, as long as there is room. */
module CfgTlv {
  import opened Common
  import opened Bytes

  const ENTRY_SIZE := 12
  const START_REQ_SIZE := 16
  const START_REQ: u16 := 0
  const DRIVER_TYPE_PRODUCTION: u32 := 0

  datatype CfgVal = CfgVal(cfgId: u32, value: u32)

  /** `struct wcn36xx_hal_cfg` and the value behind it. The id field has only 16 bits. */
  function Entry(c: CfgVal): (s: seq<byte>)
    ensures |s| == ENTRY_SIZE
  {
    U16(c.cfgId % 0x1_0000) + U16(4) + U16(0) + U16(0) + U32(c.value)
  }

  function Entries(cs: seq<CfgVal>): (s: seq<byte>)
    ensures |s| == 12 * |cs|
  {
    if cs == [] then [] else Entry(cs[0]) + Entries(cs[1..])
  }

  lemma {:induction false} EntriesSnoc(cs: seq<CfgVal>, c: CfgVal)
    ensures Entries(cs + [c]) == Entries(cs) + Entry(c)
  {
    if cs == [] {
      assert cs + [c] == [c] && [c][1..] == [];
    } else {
      assert (cs + [c])[1..] == cs[1..] + [c];
      EntriesSnoc(cs[1..], c);
    }
  }

  lemma EntriesNext(cs: seq<CfgVal>, i: nat)
    requires i < |cs|
    ensures Entries(cs[..i + 1]) == Entries(cs[..i]) + Entry(cs[i])
  {
    assert cs[..i + 1] == cs[..i] + [cs[i]];
    EntriesSnoc(cs[..i], cs[i]);
  }

  /** A TLV as the firmware reads it. */
  datatype Tlv = Tlv(id: u16, body: seq<byte>)

  /** The walk over a TLV buffer: the length field of each entry leads to the next one. */
  function Walk(s: seq<byte>): (r: Option<seq<Tlv>>)
    decreases |s|
  {
    if s == [] then Some([])
    else if |s| < 8 then None
    else
      var len := GetU16(s, 2) + GetU16(s, 4);
      if |s| < 8 + len then None
      else
        var rest := Walk(s[8 + len..]);
        if rest.None? then None
        else Some([Tlv(GetU16(s, 0), s[8..8 + len])] + rest.value)
  }

  /** What the firmware should find for an entry. */
  function AsTlv(c: CfgVal): Tlv {
    Tlv(c.cfgId % 0x1_0000, U32(c.value))
  }

  ghost function AsTlvs(cs: seq<CfgVal>): seq<Tlv> {
    if cs == [] then [] else [AsTlv(cs[0])] + AsTlvs(cs[1..])
  }

  lemma EntryFields(c: CfgVal, rest: seq<byte>)
    ensures var s := Entry(c) + rest;
            && GetU16(s, 0) == c.cfgId % 0x1_0000 && GetU16(s, 2) == 4 && GetU16(s, 4) == 0 && GetU16(s, 6) == 0
            && s[8..12] == U32(c.value) && s[12..] == rest
  {
    var s := Entry(c) + rest;
    var a, b, z, v := U16(c.cfgId % 0x1_0000), U16(4), U16(0), U32(c.value);
    assert s == [] + a + (b + z + z + v + rest);
    U16RoundTrip([], c.cfgId % 0x1_0000, b + z + z + v + rest);
    assert s == a + b + (z + z + v + rest);
    U16RoundTrip(a, 4, z + z + v + rest);
    assert s == (a + b) + z + (z + v + rest);
    U16RoundTrip(a + b, 0, z + v + rest);
    assert s == (a + b + z) + z + (v + rest);
    U16RoundTrip(a + b + z, 0, v + rest);
  }

  /** Round trip: the walk over the entries gives back the list, ids cut to 16 bits. */
  lemma {:induction false} EntriesWalkBack(cs: seq<CfgVal>)
    ensures Walk(Entries(cs)) == Some(AsTlvs(cs))
  {
    if cs != [] {
      EntryFields(cs[0], Entries(cs[1..]));
      EntriesWalkBack(cs[1..]);
    }
  }

  /** `put_cfg_tlv_u32`: an entry that would bring the length to the size of the buffer or beyond is
      refused and changes nothing; otherwise it is appended behind what is there. */
  method PutCfgTlvU32(halBuf: array<byte>, len: nat, cfg: CfgVal) returns (ok: bool, newLen: nat)
    requires halBuf.Length == HAL_BUF_SIZE && len <= HAL_BUF_SIZE
    modifies halBuf
    ensures ok <==> len + ENTRY_SIZE < HAL_BUF_SIZE
    ensures ok ==> newLen == len + ENTRY_SIZE && halBuf[..newLen] == old(halBuf[..len]) + Entry(cfg)
    ensures !ok ==> newLen == len && halBuf[..] == old(halBuf[..])
  {
    if len + ENTRY_SIZE >= HAL_BUF_SIZE {
      return false, len;
    }
    Memcpy(halBuf, len, Entry(cfg));
    ok, newLen := true, len + ENTRY_SIZE;
  }

  /** `struct wcn36xx_hal_mac_start_req_msg`. */
  function StartReq(len: u32, paramsLen: u32): (s: seq<byte>)
    ensures |s| == START_REQ_SIZE
  {
    U16(START_REQ) + U16(0) + U32(len) + U32(DRIVER_TYPE_PRODUCTION) + U32(paramsLen)
  }

  /** How many entries fit behind the header: 16 + 12 n must stay below 4096. */
  const MAX_ENTRIES := 339

  /** The message that `wcn36xx_smd_start` builds. It succeeds exactly if there are at most 339
      entries; if not, the first 339 are in the buffer, undamaged. */
  method BuildStart(halBuf: array<byte>, cfgs: seq<CfgVal>) returns (ok: bool, len: nat)
    requires halBuf.Length == HAL_BUF_SIZE
    modifies halBuf
    ensures ok <==> |cfgs| <= MAX_ENTRIES
    ensures ok ==> len == START_REQ_SIZE + 12 * |cfgs| < HAL_BUF_SIZE
    ensures ok ==> halBuf[..len] == StartReq(len, len - START_REQ_SIZE) + Entries(cfgs)
    ensures !ok ==> len == START_REQ_SIZE + 12 * MAX_ENTRIES
    ensures !ok ==> halBuf[START_REQ_SIZE..len] == Entries(cfgs[..MAX_ENTRIES])
  {
    Memcpy(halBuf, 0, StartReq(START_REQ_SIZE, 0));
    len := START_REQ_SIZE;
    for i := 0 to |cfgs|
      invariant len == START_REQ_SIZE + 12 * i && i <= MAX_ENTRIES
      invariant halBuf[START_REQ_SIZE..len] == Entries(cfgs[..i])
    {
      EntriesNext(cfgs, i);
      ok, len := AppendEntry(halBuf, len, cfgs[i], Entries(cfgs[..i]));
      if !ok {
        assert i == MAX_ENTRIES;
        return;
      }
    }
    assert cfgs[..|cfgs|] == cfgs;
    FinishHeader(halBuf, len, Entries(cfgs));
    ok := true;
  }

  /** One iteration of the loop in `wcn36xx_smd_start`. */
  method AppendEntry(halBuf: array<byte>, len: nat, cfg: CfgVal, ghost es: seq<byte>) returns (ok: bool, newLen: nat)
    requires halBuf.Length == HAL_BUF_SIZE && START_REQ_SIZE <= len <= HAL_BUF_SIZE
    requires halBuf[START_REQ_SIZE..len] == es
    modifies halBuf
    ensures ok <==> len + ENTRY_SIZE < HAL_BUF_SIZE
    ensures newLen == if ok then len + ENTRY_SIZE else len
    ensures halBuf[START_REQ_SIZE..newLen] == if ok then es + Entry(cfg) else es
  {
    ok, newLen := PutCfgTlvU32(halBuf, len, cfg);
    if ok {
      assert halBuf[START_REQ_SIZE..newLen] == halBuf[..newLen][START_REQ_SIZE..];
    } else {
      assert halBuf[START_REQ_SIZE..len] == halBuf[..][START_REQ_SIZE..len];
    }
  }

  /** Fills in the two lengths in front of the entries. */
  method FinishHeader(halBuf: array<byte>, len: u32, ghost es: seq<byte>)
    requires halBuf.Length == HAL_BUF_SIZE && START_REQ_SIZE <= len <= HAL_BUF_SIZE
    requires halBuf[START_REQ_SIZE..len] == es
    modifies halBuf
    ensures halBuf[..len] == StartReq(len, len - START_REQ_SIZE) + es
  {
    Memcpy(halBuf, 0, StartReq(len, len - START_REQ_SIZE));
    assert halBuf[..len] == halBuf[..][..len];
  }

  /** What the firmware makes of a message of type 0 (start) and version 0, whose header gives its
      length, for a production driver (0): `params.len` bytes behind the header, walked. */
  function Received(msg: seq<byte>): Option<seq<Tlv>> {
    if |msg| < START_REQ_SIZE then None
    else if GetU16(msg, 0) != 0 || GetU16(msg, 2) != 0 || GetU32(msg, 4) != |msg| || GetU32(msg, 8) != 0 then None
    else Params(msg[START_REQ_SIZE..], GetU32(msg, 12))
  }

  function Params(s: seq<byte>, len: u32): Option<seq<Tlv>> {
    if |s| < len then None else Walk(s[..len])
  }

  /** The firmware reads back exactly the configuration list out of the start message. */
  lemma {:induction false} StartMessageReadsBack(cfgs: seq<CfgVal>, len: u32)
    requires len == START_REQ_SIZE + 12 * |cfgs|
    ensures Received(StartReq(len, len - START_REQ_SIZE) + Entries(cfgs)) == Some(AsTlvs(cfgs))
  {
    ReceivedIsWalked(len, len - START_REQ_SIZE, Entries(cfgs));
    EntriesWalkBack(cfgs);
  }

  lemma ReceivedIsWalked(len: u32, n: u32, es: seq<byte>)
    requires |es| == n && len == START_REQ_SIZE + n
    ensures Received(StartReq(len, n) + es) == Walk(es)
  {
    var msg := StartReq(len, n) + es;
    HeaderFields(len, n, es);
    assert msg[START_REQ_SIZE..] == es && es[..n] == es;
  }

  lemma HeaderFields(len: u32, n: u32, es: seq<byte>)
    ensures var msg := StartReq(len, n) + es;
            && GetU16(msg, 0) == START_REQ && GetU16(msg, 2) == 0 && GetU32(msg, 4) == len
            && GetU32(msg, 8) == DRIVER_TYPE_PRODUCTION && GetU32(msg, 12) == n
  {
    var a, b, c, d, e := U16(START_REQ), U16(0), U32(len), U32(DRIVER_TYPE_PRODUCTION), U32(n);
    var msg := StartReq(len, n) + es;
    assert msg == [] + a + (b + c + d + e + es);
    U16RoundTrip([], START_REQ, b + c + d + e + es);
    assert msg == a + b + (c + d + e + es);
    U16RoundTrip(a, 0, c + d + e + es);
    assert msg == (a + b) + c + (d + e + es);
    U32RoundTrip(a + b, len, d + e + es);
    assert msg == (a + b + c) + d + (e + es);
    U32RoundTrip(a + b + c, DRIVER_TYPE_PRODUCTION, e + es);
    assert msg == (a + b + c + d) + e + es;
    U32RoundTrip(a + b + c + d, n, es);
  }
}
