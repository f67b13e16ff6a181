/** LLCP PDUs (src/llcp.c) and SNEP messages (src/snep.c, src/llcp-snep.c). */
module Llcp {
  import opened Bytes

  type Sap = s: int | 0 <= s < 64
  type PType = t: int | 0 <= t < 16

  const SAP_LM: Sap := 0
  const SAP_SNEP: Sap := 4

  const SYMM: PType := 0
  const CONNECT: PType := 4
  const DISC: PType := 5
  const CC: PType := 6
  const DM: PType := 7
  const FRMR: PType := 8
  const I: PType := 12
  const RR: PType := 13
  const RNR: PType := 14

  /** `struct llcp_pdu`: two service access points, the type, and the bytes that follow the header. */
  datatype Pdu = Pdu(dsap: Sap, ptype: PType, ssap: Sap, info: seq<byte>)

  /** The header is packed as `dsap:6 ptype:4 ssap:6`. */
  function Pack(p: Pdu): (b: seq<byte>)
    ensures |b| == 2 + |p.info|
  {
    [p.dsap * 4 + p.ptype / 4, p.ptype % 4 * 64 + p.ssap] + p.info
  }

  function Parse(b: seq<byte>): Pdu
    requires |b| >= 2
  {
    Pdu(b[0] / 4, b[0] % 4 * 4 + b[1] / 64, b[1] % 64, b[2..])
  }

  /** The header is a word of 16 bits: 6 for the DSAP, 4 for the type, 6 for the SSAP. */
  lemma HeaderWord(p: Pdu)
    ensures Pack(p)[0] as int * 256 + Pack(p)[1] as int == p.dsap * 1024 + p.ptype * 64 + p.ssap
    ensures Pack(p)[2..] == p.info
  {
    assert Pack(p)[2..] == p.info;
  }

  lemma ParsePack(p: Pdu)
    ensures Parse(Pack(p)) == p
  {
    assert Pack(p)[2..] == p.info;
  }

  lemma PackParse(b: seq<byte>)
    requires |b| >= 2
    ensures Pack(Parse(b)) == b
  {
  }

  /** The sequence byte of an I PDU: N(S) in the upper half, N(R) in the lower half. */
  function SeqByte(ns: nat, nr: nat): (b: byte)
    ensures b / 16 == ns % 16 && b % 16 == nr % 16
  {
    ns % 16 * 16 + nr % 16
  }

  /** N(S) of an I PDU. */
  function Ns(p: Pdu): int
  {
    if p.info == [] then -1 else p.info[0] / 16
  }

  // ----- SNEP -----

  const VERSION: byte := 0x10
  const REQ_PUT: byte := 0x02
  const RSP_SUCCESS: byte := 0x81
  const RSP_EXCESS_DATA: byte := 0xc1
  const RSP_NOT_IMPLEMENTED: byte := 0xe0
  const RSP_UNSUPPORTED_VERSION: byte := 0xe1

  const SNEP_HEADER := 6
  const RBUF_SIZE := 256

  /** A SNEP message: version, code, big-endian length, information field. */
  function SnepMessage(msg: byte, info: seq<byte>): seq<byte>
    requires |info| < 0x1_0000_0000
  {
    [VERSION, msg] + Be32(|info|) + info
  }

  /** What a SAP handler does: `stored` goes into the receive buffer, `reply` is the code of the response. */
  datatype Handling = Handling(stored: Option<seq<byte>>, reply: Option<byte>)

  /** `llcp_sap_snep`; its assertion demands a complete header. */
  function SapSnep(info: seq<byte>): Handling
    requires |info| >= SNEP_HEADER
  {
    var n := FromBe32(info[2..6]);
    if !(n < 0xffff_ffff - SNEP_HEADER) || n + SNEP_HEADER != |info| then Handling(None, Some(RSP_EXCESS_DATA))
    else ProcessMsg(info[0], info[1], info[6..])
  }

  /** `process_msg` and its handlers for requests and responses. */
  function ProcessMsg(version: byte, msg: byte, info: seq<byte>): Handling
  {
    if version > VERSION then Handling(None, Some(RSP_UNSUPPORTED_VERSION))
    else if msg == REQ_PUT then
      if |info| < RBUF_SIZE then Handling(Some(info), Some(RSP_SUCCESS)) else Handling(None, Some(RSP_EXCESS_DATA))
    else if msg == RSP_SUCCESS then Handling(None, None)
    else Handling(None, Some(RSP_NOT_IMPLEMENTED))
  }

  /** The handler stores the information field of a put request and nothing else. */
  lemma SnepStoresIff(info: seq<byte>, data: seq<byte>)
    requires |info| >= SNEP_HEADER && |data| < RBUF_SIZE
    ensures SapSnep(info).stored == Some(data)
       <==> info[0] <= VERSION && info[1..] == SnepMessage(REQ_PUT, data)[1..]
  {
    var w := SnepMessage(REQ_PUT, data);
    assert w[2..6] == Be32(|data|) && w[6..] == data;
    Be32RoundTrip(|data|);
    if SapSnep(info).stored == Some(data) {
      Be32Unique(info[2..6]);
      assert info[1..] == [info[1]] + info[2..6] + info[6..];
      assert w[1..] == [REQ_PUT] + Be32(|data|) + data;
    }
    if info[0] <= VERSION && info[1..] == w[1..] {
      assert info[2..6] == info[1..][1..5] == w[1..][1..5] == Be32(|data|);
      assert info[6..] == info[1..][5..] == w[1..][5..] == data;
      assert info[1] == info[1..][0] == REQ_PUT;
    }
  }

  lemma Be32Unique(s: seq<byte>)
    requires |s| == 4
    ensures Be32(FromBe32(s)) == s
  {
    var n := FromBe32(s);
    assert n / 0x100 == s[0] as int * 0x1_0000 + s[1] as int * 0x100 + s[2] as int;
    assert n / 0x1_0000 == s[0] as int * 0x100 + s[1] as int;
    assert n / 0x100_0000 == s[0];
  }

  /** A put request, byte by byte: version 1.0, code 2, the length in four bytes, the information field. */
  lemma PutBytes(data: seq<byte>)
    requires |data| < 0x1_0000
    ensures SnepMessage(REQ_PUT, data) == [0x10, 0x02, 0, 0, |data| / 256, |data| % 256] + data
  {
    assert Be32(|data|) == [0, 0, |data| / 256, |data| % 256];
  }

  /** The length field of a message. */
  function LengthField(info: seq<byte>): nat
    requires |info| >= 6
  {
    info[2] as int * 0x100_0000 + info[3] as int * 0x1_0000 + info[4] as int * 0x100 + info[5] as int
  }

  /**
   * What is answered, in the order of the tests: 0xC1 to a wrong length, 0xE1 to a version above 1.0, and then to a
   * put 0x81 or, if it does not fit, 0xC1; nothing to a success response, and 0xE0 to all other codes.
   */
  lemma AnswerCodes(info: seq<byte>)
    requires 6 <= |info| < 0x1_0000
    ensures SapSnep(info).reply ==
      if LengthField(info) + 6 != |info| then Some(0xC1)
      else if info[0] > 0x10 then Some(0xE1)
      else if info[1] == 0x02 then if |info| - 6 < 256 then Some(0x81) else Some(0xC1)
      else if info[1] == 0x81 then None
      else Some(0xE0)
  {
    assert FromBe32(info[2..6]) == LengthField(info);
  }

  /** Whatever `snep_create_req_put` writes, `llcp_sap_snep` takes apart again. */
  lemma PutRoundTrip(data: seq<byte>)
    requires |data| < RBUF_SIZE
    ensures SapSnep(SnepMessage(REQ_PUT, data)) == Handling(Some(data), Some(RSP_SUCCESS))
  {
    SnepStoresIff(SnepMessage(REQ_PUT, data), data);
  }
}
