/** A type 4 tag: capability container, NDEF file and the selected file (src/nfc-tag.c). */
module TagT4t {
  import opened Bytes

  const CC_SIZE := 15
  const FILE_SIZE := 1024

  /** The capability containers of an empty tag and of one that holds a message. */
  const PROPRIETARY_CC: seq<byte> := [0x00, 0x0f, 0x20, 0x00, 0x3b, 0x00, 0x34, 0x05, 0x06, 0xE1, 0x04, 0x04, 0, 0, 0]
  const NDEF_CC: seq<byte> := [0x00, 0x0f, 0x20, 0x00, 0x3b, 0x00, 0x34, 0x04, 0x06, 0xE1, 0x04, 0x04, 0, 0, 0]

  const APP_APDU: seq<byte> := [0x00, 0xa4, 0x04, 0x00, 0x07, 0xd2, 0x76, 0x00, 0x00, 0x85, 0x01, 0x01, 0x00]
  const CC_APDU: seq<byte> := [0x00, 0xa4, 0x00, 0x0c, 0x02, 0xe1, 0x03]
  const READ_APDU: seq<byte> := [0x00, 0xb0]
  const NDEF_APDU: seq<byte> := [0x00, 0xa4, 0x00, 0x0c, 0x02, 0xe1, 0x04]

  const SUCCESS: seq<byte> := [0x90, 0x00]
  const NOT_FOUND: seq<byte> := [0x6a, 0x82]

  datatype Selected = NoFile | CcFile | NdefFile

  /** The tag's memory, and the file that a command selected. */
  datatype State = State(cc: seq<byte>, data: seq<byte>, sel: Selected)
  {
    predicate Valid() {
      |cc| == CC_SIZE && |data| == FILE_SIZE
    }
  }

  predicate Fits(msg: seq<byte>)
  {
    |msg| + 2 < FILE_SIZE
  }

  /** The NDEF file: its length in two bytes, then the message. */
  function NdefFileOf(msg: seq<byte>): (s: seq<byte>)
    requires Fits(msg)
    ensures |s| == |msg| + 2
  {
    [|msg| / 256, |msg| % 256] + msg
  }

  /** What a reader makes of an NDEF file. */
  function MessageOf(file: seq<byte>): Option<seq<byte>>
  {
    if |file| < 2 || |file| < 2 + file[0] as int * 256 + file[1] as int then None
    else Some(file[2..2 + file[0] as int * 256 + file[1] as int])
  }

  /** The state after a message is set; the selected file stays, and so does what lies behind the message. */
  function With(s: State, msg: seq<byte>): (t: State)
    requires s.Valid() && Fits(msg)
    ensures t.Valid()
  {
    State(NDEF_CC, Splice(s.data, 0, NdefFileOf(msg)), s.sel)
  }

  function Formatted(s: State): (t: State)
    ensures t.Valid()
  {
    State(PROPRIETARY_CC, Zeros(FILE_SIZE), s.sel)
  }

  function FileOf(s: State): seq<byte>
  {
    match s.sel
    case NoFile => []
    case CcFile => s.cc
    case NdefFile => s.data
  }

  /** What follows a command: `Refused` is a failed assertion. */
  datatype Answer = Answer(state: State, bytes: seq<byte>) | Refused

  /** `process_t4t_read_binary` */
  function ReadBinary(s: State, off: nat, le: byte): Answer
  {
    if s.sel == NoFile || le + off > |FileOf(s)| then Refused else Answer(s, FileOf(s)[off..off + le] + SUCCESS)
  }

  /**
   * `process_t4t`. The test for the last command compares a constant with itself: whatever is none of the others is
   * taken for the selection of a file by its two last bytes.
   */
  function Process(s: State, cmd: seq<byte>): Answer
    requires |cmd| >= |APP_APDU|
  {
    if cmd[..13] == APP_APDU then Answer(s, SUCCESS)
    else if cmd[..7] == CC_APDU then Answer(s.(sel := CcFile), SUCCESS)
    else if cmd[..2] == READ_APDU then ReadBinary(s, cmd[2] as int * 256 + cmd[3] as int, cmd[4])
    else if cmd[5] == 0xe1 && cmd[6] == 0x04 then Answer(s.(sel := NdefFile), SUCCESS)
    else Answer(s, NOT_FOUND)
  }

  class Tag {
    const cc: array<byte>
    const data: array<byte>
    var sel: Selected

    ghost predicate Valid()
    {
      cc.Length == CC_SIZE && data.Length == FILE_SIZE && cc != data
    }

    ghost function View(): State
      reads this, cc, data
    {
      State(cc[..], data[..], sel)
    }

    constructor ()
      ensures Valid() && fresh(cc) && fresh(data) && View() == State(PROPRIETARY_CC, Zeros(FILE_SIZE), NoFile)
    {
      cc := new byte[CC_SIZE](i requires 0 <= i < CC_SIZE => PROPRIETARY_CC[i]);
      data := new byte[FILE_SIZE](_ => 0);
      sel := NoFile;
    }

    /** `set_t4t_data`; false when its assertion fails. */
    method SetT4t(msg: seq<byte>) returns (ok: bool)
      requires Valid()
      modifies cc, data
      ensures ok <==> |msg| + 2 < 1024
      ensures View() == if ok then With(old(View()), msg) else old(View())
    {
      if !(|msg| + 2 < FILE_SIZE) {
        return false;
      }
      ghost var was := data[..];
      Copy(cc, 0, NDEF_CC);
      assert cc[..] == cc[0..0 + CC_SIZE];
      data[0], data[1] := |msg| / 256 % 256, |msg| % 256;
      Copy(data, 2, msg);
      assert data[..] == NdefFileOf(msg) + was[2 + |msg|..];
      ok := true;
    }

    /** `nfc_tag_format` for type 4 */
    method Format()
      requires Valid()
      modifies cc, data
      ensures View() == Formatted(old(View()))
    {
      Copy(data, 0, Zeros(FILE_SIZE));
      assert data[..] == data[0..0 + FILE_SIZE];
      Copy(cc, 0, PROPRIETARY_CC);
      assert cc[..] == cc[0..0 + CC_SIZE];
    }

    /** `process_t4t`, with the assertions of reading as the precondition */
    method ProcessT4t(cmd: seq<byte>) returns (rsp: seq<byte>)
      requires Valid() && |cmd| >= |APP_APDU| && Process(View(), cmd).Answer?
      modifies this`sel
      ensures Process(old(View()), cmd) == Answer(View(), rsp)
    {
      if cmd[..13] == APP_APDU {
        return SUCCESS;
      } else if cmd[..7] == CC_APDU {
        sel := CcFile;
        return SUCCESS;
      } else if cmd[..2] == READ_APDU {
        var offset: nat := cmd[2] as int * 256 + cmd[3] as int;
        if sel == CcFile {
          rsp := cc[offset..offset + cmd[4]] + SUCCESS;
        } else {
          rsp := data[offset..offset + cmd[4]] + SUCCESS;
        }
      } else if cmd[5] == 0xe1 && cmd[6] == 0x04 {
        sel := NdefFile;
        return SUCCESS;
      } else {
        return NOT_FOUND;
      }
    }
  }

  // ----- What a reader gets -----

  /** READ BINARY for `le` bytes from `off` on; `pad` is what lies behind the command in its buffer. */
  function ReadCommand(off: nat, le: byte, pad: seq<byte>): (cmd: seq<byte>)
    requires off < 0x1_0000
    ensures |cmd| == 5 + |pad|
  {
    READ_APDU + [off / 256, off % 256, le] + pad
  }

  lemma ReadAnswer(s: State, off: nat, le: byte, pad: seq<byte>)
    requires s.Valid() && off < 0x1_0000 && |pad| >= 8
    ensures Process(s, ReadCommand(off, le, pad)) == ReadBinary(s, off, le)
  {
    var cmd := ReadCommand(off, le, pad);
    assert cmd[1] == 0xb0 && APP_APDU[1] == CC_APDU[1] == 0xa4;
    assert cmd[..13][1] == cmd[..7][1] == 0xb0;
    assert cmd[..2] == READ_APDU;
  }

  /** An NCI packet keeps the length of a response in 8 bits. */
  function InPacket(bytes: seq<byte>): seq<byte>
  {
    bytes[..|bytes| % 256]
  }

  /** A response arrives unharmed exactly when at most 253 bytes are asked for. */
  lemma PortionArrivesIff(s: State, off: nat, le: byte)
    requires ReadBinary(s, off, le).Answer?
    ensures InPacket(ReadBinary(s, off, le).bytes) == ReadBinary(s, off, le).bytes <==> le <= 253
  {
    assert |ReadBinary(s, off, le).bytes| == le + 2;
  }

  /**
   * What a series of READ BINARY commands gives, one behind the other, without the status words, as it arrives in
   * packets.
   */
  function ReadChunks(s: State, off: nat, sizes: seq<byte>, pad: seq<byte>): Option<seq<byte>>
    requires |pad| >= 8
    decreases |sizes|
  {
    if sizes == [] then Some([])
    else if off >= 0x1_0000 then None
    else
      var a := Process(s, ReadCommand(off, sizes[0], pad));
      if a.Refused? || |InPacket(a.bytes)| < 2 then None
      else
        var data := InPacket(a.bytes);
        var rest := ReadChunks(a.state, off + sizes[0], sizes[1..], pad);
        if rest.None? then None else Some(data[..|data| - 2] + rest.value)
  }

  predicate Portions(sizes: seq<byte>)
  {
    forall i :: 0 <= i < |sizes| ==> sizes[i] <= 253
  }

  function Total(sizes: seq<byte>): nat
    decreases |sizes|
  {
    if sizes == [] then 0 else sizes[0] + Total(sizes[1..])
  }

  /** Any portions that stay inside the selected file give the bytes of the file, in order. */
  lemma {:induction false} ChunksAreFile(s: State, off: nat, sizes: seq<byte>, pad: seq<byte>)
    requires s.Valid() && s.sel != NoFile && |pad| >= 8 && off + Total(sizes) <= |FileOf(s)| && Portions(sizes)
    ensures ReadChunks(s, off, sizes, pad) == Some(FileOf(s)[off..off + Total(sizes)])
    decreases |sizes|
  {
    hide Process, ReadCommand, InPacket;
    var f := FileOf(s);
    assert f[off..off] == [];
    if sizes != [] {
      ReadAnswer(s, off, sizes[0], pad);
      PortionArrivesIff(s, off, sizes[0]);
      ChunksAreFile(s, off + sizes[0], sizes[1..], pad);
      var bytes, n := ReadBinary(s, off, sizes[0]).bytes, Total(sizes[1..]);
      assert bytes[..|bytes| - 2] == f[off..off + sizes[0]];
      assert f[off..off + Total(sizes)] == f[off..off + sizes[0]] + f[off + sizes[0]..off + sizes[0] + n];
    }
  }

  /** The selection of the capability container, as the host sends it. */
  const SELECT_CC: seq<byte> := [0x00, 0xa4, 0x00, 0x0c, 0x02, 0xe1, 0x03]

  lemma CcSelects(s: State, pad: seq<byte>)
    requires |pad| >= 8
    ensures Process(s, SELECT_CC + pad) == Answer(s.(sel := CcFile), [0x90, 0x00])
  {
    var cmd := SELECT_CC + pad;
    assert cmd[..13][2] == 0 && APP_APDU[2] == 4;
    assert cmd[..7] == CC_APDU;
  }

  /** The selection of the application changes nothing and is answered with success. */
  lemma AppSelects(s: State, pad: seq<byte>)
    ensures Process(s, [0x00, 0xa4, 0x04, 0x00, 0x07, 0xd2, 0x76, 0x00, 0x00, 0x85, 0x01, 0x01, 0x00] + pad)
         == Answer(s, [0x90, 0x00])
  {
    var cmd: seq<byte> := [0x00, 0xa4, 0x04, 0x00, 0x07, 0xd2, 0x76, 0x00, 0x00, 0x85, 0x01, 0x01, 0x00] + pad;
    assert cmd[..13] == APP_APDU;
  }

  /** The container of a tag says whether it holds a message: its eighth byte is 4, and 5 after a format. */
  function Container(filled: bool): seq<byte>
  {
    [0x00, 0x0f, 0x20, 0x00, 0x3b, 0x00, 0x34, if filled then 0x04 else 0x05, 0x06, 0xE1, 0x04, 0x04, 0x00, 0x00, 0x00]
  }

  /** After the container is selected, whatever was selected before, any portions that cover it give it. */
  lemma ContainerReadBack(s: State, msg: seq<byte>, sizes: seq<byte>, pad: seq<byte>)
    requires s.Valid() && Fits(msg) && |pad| >= 8 && Total(sizes) == CC_SIZE && Portions(sizes)
    ensures ReadChunks(With(s, msg).(sel := CcFile), 0, sizes, pad) == Some(Container(true))
    ensures ReadChunks(Formatted(s).(sel := CcFile), 0, sizes, pad) == Some(Container(false))
    ensures Process(With(s, msg), SELECT_CC + pad) == Answer(With(s, msg).(sel := CcFile), [0x90, 0x00])
    ensures Process(Formatted(s), SELECT_CC + pad) == Answer(Formatted(s).(sel := CcFile), [0x90, 0x00])
  {
    hide ReadChunks, Process;
    var t, u := With(s, msg), Formatted(s);
    CcSelects(t, pad);
    CcSelects(u, pad);
    ChunksAreFile(t.(sel := CcFile), 0, sizes, pad);
    ChunksAreFile(u.(sel := CcFile), 0, sizes, pad);
    assert t.cc[0..0 + CC_SIZE] == t.cc == Container(true);
    assert u.cc[0..0 + CC_SIZE] == u.cc == Container(false);
  }

  /** Byte by byte: the length of the message in two bytes, then the message; what lies behind it stays. */
  lemma FileBytes(s: State, msg: seq<byte>)
    requires s.Valid() && Fits(msg)
    ensures var d := With(s, msg).data;
      && d[0] == |msg| / 256 && d[1] == |msg| % 256 && d[2..2 + |msg|] == msg && d[2 + |msg|..] == s.data[2 + |msg|..]
    ensures With(s, msg).sel == s.sel && Formatted(s).sel == s.sel
    ensures forall i :: 0 <= i < FILE_SIZE ==> Formatted(s).data[i] == 0
  {
    var d, f := With(s, msg).data, NdefFileOf(msg);
    assert d[0..0 + |f|] == f && forall i :: 0 <= i < |f| ==> d[i] == f[i];
    assert d[2..2 + |msg|] == f[2..];
  }

  /**
   * After a message is set and the NDEF file selected, whatever was stored and selected before, reading the file in
   * any portions of at most 253 bytes that cover it gives the message back.
   */
  lemma ReadBack(s: State, msg: seq<byte>, sizes: seq<byte>, pad: seq<byte>)
    requires s.Valid() && Fits(msg) && |pad| >= 8 && |msg| + 2 <= Total(sizes) <= FILE_SIZE && Portions(sizes)
    ensures var a := Process(With(s, msg), NDEF_APDU + pad);
      && a.Answer? && a.bytes == SUCCESS
      && ReadChunks(a.state, 0, sizes, pad).Some?
      && MessageOf(ReadChunks(a.state, 0, sizes, pad).value) == Some(msg)
  {
    hide ReadChunks;
    var cmd, t := NDEF_APDU + pad, With(s, msg);
    var u := t.(sel := NdefFile);
    NdefSelects(t, pad);
    hide Process;
    ChunksAreFile(u, 0, sizes, pad);
    var file := u.data[0..0 + Total(sizes)];
    assert file[..|msg| + 2] == t.data[0..0 + |NdefFileOf(msg)|] == NdefFileOf(msg);
    assert file[0] as int * 256 + file[1] as int == |msg| by {
      assert file[0] == NdefFileOf(msg)[0] && file[1] == NdefFileOf(msg)[1];
    }
    assert file[2..2 + |msg|] == file[..|msg| + 2][2..] == msg;
  }

  /** None of the commands that `process_t4t` looks for. */
  predicate Unknown(cmd: seq<byte>)
    requires |cmd| >= |APP_APDU|
  {
    cmd[..13] != APP_APDU && cmd[..7] != CC_APDU && cmd[..2] != READ_APDU
  }

  /**
   * Every unknown command is taken for the selection of the NDEF file: whatever else it holds, it has the effect of
   * the real one if its sixth and seventh byte are those of the file, and else that of selecting a missing file.
   */
  lemma UnknownSelects(s: State, cmd: seq<byte>, pad: seq<byte>)
    requires |cmd| >= |APP_APDU| && Unknown(cmd) && |pad| >= 8
    ensures Process(s, cmd) == if cmd[5..7] == [0xe1, 0x04] then Process(s, NDEF_APDU + pad) else Answer(s, [0x6a, 0x82])
  {
    NdefSelects(s, pad);
    assert cmd[5..7] == [cmd[5], cmd[6]];
  }

  lemma NdefSelects(s: State, pad: seq<byte>)
    requires |pad| >= 8
    ensures Process(s, NDEF_APDU + pad) == Answer(s.(sel := NdefFile), [0x90, 0x00])
  {
    var cmd := NDEF_APDU + pad;
    assert cmd[..13][2] == 0 && APP_APDU[2] == 4 && cmd[..7][6] == 4 && CC_APDU[6] == 3 && cmd[..2][1] == 0xa4;
  }

  /** A command of another class and instruction that selects the NDEF file. */
  lemma NonsenseSelects(s: State)
    ensures Process(s, [0xff, 0xff, 0xff, 0xff, 0xff, 0xe1, 0x04, 0, 0, 0, 0, 0, 0])
         == Answer(s.(sel := NdefFile), SUCCESS)
  {
    var cmd: seq<byte> := [0xff, 0xff, 0xff, 0xff, 0xff, 0xe1, 0x04, 0, 0, 0, 0, 0, 0];
    assert cmd[..13][0] == cmd[..7][0] == cmd[..2][0] == 0xff && APP_APDU[0] == CC_APDU[0] == READ_APDU[0] == 0;
  }

  /** A read is refused exactly when no file is selected or it leaves the file. */
  lemma ReadAcceptedIff(s: State, off: nat, le: byte, pad: seq<byte>)
    requires s.Valid() && off < 0x1_0000 && |pad| >= 8
    ensures Process(s, ReadCommand(off, le, pad)).Answer? <==>
      (s.sel == CcFile && off + le <= 15) || (s.sel == NdefFile && off + le <= 1024)
  {
    ReadAnswer(s, off, le, pad);
  }
}
