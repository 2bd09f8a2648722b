/** Modbus framing: the table-driven CRC loop, the server's replies and the client's requests. */
module Modbus {
  import opened Options
  import opened Crc16
  import opened Crc16Order
  import opened ModbusTables

  const READ_HOLDING_REGISTERS: bv8 := 0x03
  const READ_INPUT_REGISTERS: bv8 := 0x04
  const WRITE_SINGLE_REGISTER: bv8 := 0x06
  const READ_SLAVE_ID: bv8 := 0x11

  const EIO: int := 5
  const EINVAL: int := 22

  function Word(hi: bv8, lo: bv8): bv16 {
    ((hi as bv16) << 8) | (lo as bv16)
  }

  /** What the server computes is the register with its two bytes exchanged. */
  function Exchanged(r: bv16): bv16 {
    Word(LowByte(r), HighByte(r))
  }

  function ByteXor(a: bv8, b: bv8): bv8 {
    a ^ b
  }

  lemma CrcByteSplits(r: bv16, b: bv8)
    ensures CrcByte(r, b) == Xor(Steps(ByteXor(LowByte(r), b) as bv16, 8), HighByte(r) as bv16)
  {
    SplitRegister(r, b);
    EightStepsOfClearLow(HighByte(r));
    StepsAreLinear(ByteXor(LowByte(r), b) as bv16, (HighByte(r) as bv16) << 8, 8);
    hide Steps, Xor, ByteXor, LowByte, HighByte;
  }

  lemma SplitRegister(r: bv16, b: bv8)
    ensures Xor(r, b as bv16) == Xor(ByteXor(LowByte(r), b) as bv16, (HighByte(r) as bv16) << 8)
  {
  }

  lemma BytesOfSmallSum(t: bv16, h: bv8)
    ensures LowByte(Xor(t, h as bv16)) == ByteXor(h, LowByte(t))
    ensures HighByte(Xor(t, h as bv16)) == HighByte(t)
  {
  }

  /** One round of the loop, with the register's bytes kept in `hi` and `lo`. */
  lemma TableRound(r: bv16, b: bv8, hi: bv8, lo: bv8)
    requires hi == LowByte(r) && lo == HighByte(r)
    ensures ByteXor(lo, TableHi(ByteXor(hi, b))) == LowByte(CrcByte(r, b))
    ensures TableLo(ByteXor(hi, b)) == HighByte(CrcByte(r, b))
  {
    hide Steps, Xor, ByteXor, LowByte, HighByte, TableHi, TableLo, CrcByte;
    CrcByteSplits(r, b);
    BytesOfSmallSum(Steps(ByteXor(hi, b) as bv16, 8), lo);
  }

  /** The loop of `_modbus_crc16`. */
  method TableCrc(buffer: array<bv8>, length: nat) returns (crc: bv16)
    requires length <= buffer.Length && length < 0x1_0000
    ensures crc == Exchanged(Crc(buffer[..length]))
  {
    var crcHi: bv8, crcLo: bv8 := 0xFF, 0xFF;
    ghost var r := INITIAL;
    var k := 0;
    while k < length
      invariant 0 <= k <= length
      invariant crcHi == LowByte(r) && crcLo == HighByte(r)
      invariant CrcFrom(r, buffer[k..length]) == Crc(buffer[..length])
    {
      hide Steps, LowByte, HighByte, CrcByte, TableHi, TableLo, ByteXor;
      TableRound(r, buffer[k], crcHi, crcLo);
      assert buffer[k..length][0] == buffer[k] && buffer[k..length][1..] == buffer[k + 1..length];
      var i := ByteXor(crcHi, buffer[k]);
      crcHi := ByteXor(crcLo, TableHi(i));
      crcLo := TableLo(i);
      r := CrcByte(r, buffer[k]);
      k := k + 1;
    }
    assert buffer[length..length] == [];
    crc := Word(crcHi, crcLo);
  }

  lemma ExchangedBytes(r: bv16)
    ensures HighByte(Exchanged(r)) == LowByte(r) && LowByte(Exchanged(r)) == HighByte(r)
  {
  }

  // ----- frames

  /** A message and its CRC, low byte of the register first. */
  function Frame(body: seq<bv8>): seq<bv8> {
    body + [LowByte(Crc(body)), HighByte(Crc(body))]
  }

  /** What a receiver that checks a frame tests. */
  predicate Accepted(frame: seq<bv8>) {
    Crc(frame) == 0
  }

  lemma FrameAccepted(body: seq<bv8>)
    ensures Accepted(Frame(body))
  {
    ResidueZero(body, LowByte(Crc(body)), HighByte(Crc(body)));
  }

  /** A frame hit by a burst of at most sixteen bits, by any odd number of flipped bits, or, up to a length
      far beyond any frame's, by up to three flipped bits anywhere, is not accepted. */
  lemma DamagedFrameRejected(body: seq<bv8>, received: seq<bv8>, k: nat)
    requires |received| == |body| + 2 && received != Frame(body)
    requires AgreeOutside(MessageBits(Frame(body)), MessageBits(received), k, 16)
          || OddBits(Differences(MessageBits(Frame(body)), MessageBits(received)))
          || (|received| <= 4095 && 1 <= Ones(Differences(MessageBits(Frame(body)), MessageBits(received))) <= 3)
    ensures !Accepted(received)
  {
    FrameAccepted(body);
    if AgreeOutside(MessageBits(Frame(body)), MessageBits(received), k, 16) {
      BurstDetected(Frame(body), received, k);
    } else if OddBits(Differences(MessageBits(Frame(body)), MessageBits(received))) {
      OddErrorsDetected(Frame(body), received);
    } else {
      hide Ones, Frame, Crc, MessageBits;
      ThreeBitsDetected(Frame(body), received);
    }
  }

  /** Appends the CRC of `buffer[..length]` the way every writer in the source does. */
  method AppendCrc(buffer: array<bv8>, length: nat)
    requires length + 2 <= buffer.Length && length < 0x1_0000
    modifies buffer
    ensures buffer[..length + 2] == Frame(old(buffer[..length])) && Accepted(buffer[..length + 2])
    ensures buffer[length + 2..] == old(buffer[length + 2..])
  {
    var crc := TableCrc(buffer, length);
    ExchangedBytes(Crc(buffer[..length]));
    FrameAccepted(buffer[..length]);
    hide LowByte, HighByte, Exchanged, Accepted;
    buffer[length] := HighByte(crc);
    buffer[length + 1] := LowByte(crc);
  }

  // ----- server

  /** The register map behind the server, whatever its state is: a read may fail, a write may be refused, or
      change the state. */
  datatype Registers<!S> = Registers(state: S, read: (S, bv16) -> Option<bv32>, write: (S, bv16, bv16) -> Option<S>) {
    function Read(reg: bv16): Option<bv32> {
      read(state, reg)
    }

    function Write(reg: bv16, value: bv16): Option<Registers<S>> {
      match write(state, reg, value)
      case Some(next) => Some(this.(state := next))
      case None => None
    }
  }

  datatype Access = NoAccess | ReadAccess(start: bv16) | WriteAccess(start: bv16, value: bv16)

  /** Either the return code of a request that is not answered or the answer without its CRC. */
  datatype Reply = Refused(code: int) | Answer(body: seq<bv8>)

  /** The register access a request asks for. */
  function Requested(addr: bv8, rx: seq<bv8>): Access
    requires |rx| >= 6
  {
    if rx[0] != addr then NoAccess
    else if rx[1] == READ_INPUT_REGISTERS || rx[1] == READ_HOLDING_REGISTERS then ReadAccess(Word(rx[2], rx[3]))
    else if rx[1] == WRITE_SINGLE_REGISTER then WriteAccess(Word(rx[2], rx[3]), Word(rx[4], rx[5]))
    else NoAccess
  }

  function ValueHigh(value: bv32): bv8 {
    ((value >> 8) & 0xFF) as bv8
  }

  function ValueLow(value: bv32): bv8 {
    (value & 0xFF) as bv8
  }

  function ReplyTo<S>(addr: bv8, slaveId: bv8, rx: seq<bv8>, registers: Registers<S>): Reply
    requires |rx| >= 6
  {
    if rx[0] != addr then Refused(-EINVAL)
    else match Requested(addr, rx)
      case ReadAccess(start) =>
        (match registers.Read(start)
         case Some(value) => Answer([addr, rx[1], 2, ValueHigh(value), ValueLow(value)])
         case None => Refused(-1))
      case WriteAccess(start, value) =>
        if registers.Write(start, value).Some? then Answer([addr, rx[1], rx[2], rx[3], rx[4], rx[5]]) else Refused(-1)
      case NoAccess =>
        if rx[1] == READ_SLAVE_ID then Answer([addr, rx[1], 1, slaveId]) else Refused(0)
  }

  /** What a request leaves in the register map. */
  function AfterRequest<S>(addr: bv8, rx: seq<bv8>, registers: Registers<S>): Registers<S>
    requires |rx| >= 6
  {
    match Requested(addr, rx)
    case WriteAccess(start, value) =>
      (match registers.Write(start, value)
       case Some(next) => next
       case None => registers)
    case _ => registers
  }

  /** The return value `r` and the transmit buffer after a request: a code that is not positive and
      an untouched buffer, or the length of an accepted frame at its start. */
  ghost predicate Sent(reply: Reply, r: int, before: seq<bv8>, after: seq<bv8>) {
    && |before| == |after|
    && match reply
       case Refused(code) => r == code <= 0 && after == before
       case Answer(body) =>
         && r == |body| + 2 <= |after|
         && after[..r] == Frame(body) && Accepted(after[..r]) && after[r..] == before[r..]
  }

  class ModbusServer<S> {
    var addr: bv8
    var slaveId: bv8
    var registers: Registers<S>

    constructor (addr: bv8, slaveId: bv8, registers: Registers<S>)
      ensures this.addr == addr && this.slaveId == slaveId && this.registers == registers
    {
      this.addr := addr;
      this.slaveId := slaveId;
      this.registers := registers;
    }

    /** `modbus_server_do_request`: fills `tx` and returns its length, or a code that is not
        positive and leaves `tx` alone. Every answer is an accepted frame. */
    method DoRequest(rx: seq<bv8>, tx: array<bv8>) returns (r: int)
      requires |rx| >= 6 && tx.Length >= 8
      modifies tx, this`registers
      ensures Sent(ReplyTo(addr, slaveId, rx, old(registers)), r, old(tx[..]), tx[..])
      ensures registers == AfterRequest(addr, rx, old(registers))
    {
      hide Sent, Word, ValueHigh, ValueLow;
      var fc := rx[1];
      if rx[0] != addr {
        NothingSent(-EINVAL, tx[..]);
        return -EINVAL;
      }
      if fc == READ_INPUT_REGISTERS || fc == READ_HOLDING_REGISTERS {
        match registers.Read(Word(rx[2], rx[3]))
        case None =>
          NothingSent(-1, tx[..]);
          r := -1;
        case Some(value) =>
          r := AnswerRead(tx, fc, value);
      } else if fc == WRITE_SINGLE_REGISTER {
        match registers.Write(Word(rx[2], rx[3]), Word(rx[4], rx[5]))
        case None =>
          NothingSent(-1, tx[..]);
          r := -1;
        case Some(next) =>
          registers := next;
          r := AnswerWrite(rx, tx);
      } else if fc == READ_SLAVE_ID {
        r := AnswerSlaveId(tx, fc);
      } else {
        NothingSent(0, tx[..]);
        r := 0;
      }
    }

    method AnswerRead(tx: array<bv8>, fc: bv8, value: bv32) returns (r: int)
      requires tx.Length >= 8
      modifies tx
      ensures Sent(Answer([addr, fc, 2, ValueHigh(value), ValueLow(value)]), r, old(tx[..]), tx[..])
    {
      hide Frame, Accepted, ValueHigh, ValueLow;
      tx[0], tx[1], tx[2], tx[3], tx[4] := addr, fc, 2, ValueHigh(value), ValueLow(value);
      assert tx[..5] == [addr, fc, 2, ValueHigh(value), ValueLow(value)];
      AppendCrc(tx, 5);
      r := 7;
    }

    method AnswerWrite(rx: seq<bv8>, tx: array<bv8>) returns (r: int)
      requires |rx| >= 6 && tx.Length >= 8
      modifies tx
      ensures Sent(Answer([addr, rx[1], rx[2], rx[3], rx[4], rx[5]]), r, old(tx[..]), tx[..])
    {
      hide Frame, Accepted;
      tx[0], tx[1], tx[2], tx[3], tx[4], tx[5] := addr, rx[1], rx[2], rx[3], rx[4], rx[5];
      assert tx[..6] == [addr, rx[1], rx[2], rx[3], rx[4], rx[5]];
      AppendCrc(tx, 6);
      r := 8;
    }

    method AnswerSlaveId(tx: array<bv8>, fc: bv8) returns (r: int)
      requires tx.Length >= 8
      modifies tx
      ensures Sent(Answer([addr, fc, 1, slaveId]), r, old(tx[..]), tx[..])
    {
      hide Frame, Accepted;
      tx[0], tx[1], tx[2], tx[3] := addr, fc, 1, slaveId;
      assert tx[..4] == [addr, fc, 1, slaveId];
      AppendCrc(tx, 4);
      r := 6;
    }
  }

  lemma NothingSent(code: int, tx: seq<bv8>)
    requires code <= 0
    ensures Sent(Refused(code), code, tx, tx)
  {
  }

  // ----- client

  function WriteBody(addr: bv8, reg: bv16, value: bv16): seq<bv8> {
    [addr, WRITE_SINGLE_REGISTER, HighByte(reg), LowByte(reg), HighByte(value), LowByte(value)]
  }

  function ReadBody(addr: bv8, reg: bv16): seq<bv8> {
    [addr, READ_HOLDING_REGISTERS, HighByte(reg), LowByte(reg), 0, 1]
  }

  /** The request `modbus_client_write_u16` sends. */
  method WriteRequest(addr: bv8, reg: bv16, value: bv16) returns (frame: seq<bv8>)
    ensures frame == Frame(WriteBody(addr, reg, value)) && Accepted(frame)
  {
    hide LowByte, HighByte, Frame, Accepted;
    var tx := new bv8[10];
    tx[0], tx[1], tx[2], tx[3] := addr, WRITE_SINGLE_REGISTER, HighByte(reg), LowByte(reg);
    tx[4], tx[5] := HighByte(value), LowByte(value);
    assert tx[..6] == WriteBody(addr, reg, value);
    AppendCrc(tx, 6);
    FrameAccepted(WriteBody(addr, reg, value));
    frame := tx[..8];
  }

  /** The request `modbus_client_read_u16` sends. Its CRC covers five of the six bytes before it, and
      no receiver that checks the CRC accepts it, whatever the address and the register are. */
  method ReadRequest(addr: bv8, reg: bv16) returns (frame: seq<bv8>)
    ensures |frame| == 8 && frame[..6] == ReadBody(addr, reg)
    ensures frame[6] == LowByte(Crc(frame[..5])) && frame[7] == HighByte(Crc(frame[..5]))
    ensures !Accepted(frame)
  {
    hide LowByte, HighByte, Accepted, Crc;
    var tx := new bv8[10];
    tx[0], tx[1], tx[2], tx[3] := addr, READ_HOLDING_REGISTERS, HighByte(reg), LowByte(reg);
    tx[4], tx[5] := 0, 1;
    ghost var body := tx[..5];
    var crc := TableCrc(tx, 5);
    ExchangedBytes(Crc(body));
    tx[6] := HighByte(crc);
    tx[7] := LowByte(crc);
    frame := tx[..8];
    assert frame[..5] == body;
    assert frame == body + [1, LowByte(Crc(body)), HighByte(Crc(body))];
    ShortCrcNeverAccepted(body);
  }

  /** A body whose last byte, 1, is left out of the CRC can never be accepted: every shift keeps the
      parity of the register, and that byte flips it. */
  lemma ShortCrcNeverAccepted(body: seq<bv8>)
    ensures !Accepted(body + [1, LowByte(Crc(body)), HighByte(Crc(body))])
  {
    hide LowByte, HighByte, CrcByte;
    var r := Crc(body);
    var message := body + [1];
    assert body + [1, LowByte(r), HighByte(r)] == message + [LowByte(r), HighByte(r)];
    ResidueZero(message, LowByte(r), HighByte(r));
    CrcConcatenates(INITIAL, body, [1]);
    assert [1][1..] == [] && CrcFrom(r, [1]) == CrcFrom(CrcByte(r, 1), []);
    assert Crc(message) == CrcByte(r, 1);
    OneFlipsParity(r);
    if LowByte(r) == LowByte(CrcByte(r, 1)) && HighByte(r) == HighByte(CrcByte(r, 1)) {
      SameBytes(r, CrcByte(r, 1));
    }
  }

  lemma SameBytes(a: bv16, b: bv16)
    requires LowByte(a) == LowByte(b) && HighByte(a) == HighByte(b)
    ensures a == b
  {
  }

  lemma {:induction false} StepsKeepParity(r: bv16, n: nat)
    ensures Parity(Steps(r, n)) == Parity(r)
    decreases n
  {
    hide Parity, Step;
    if n > 0 {
      StepKeepsParity(r);
      StepsKeepParity(Step(r), n - 1);
    }
  }

  lemma OneFlipsParity(r: bv16)
    ensures Parity(CrcByte(r, 1)) != Parity(r)
  {
    hide Steps, Xor, OddOnes, Bit;
    OddOnesOfSum(r, Bit(true), 16);
    ParityOfBit(true);
    assert Bit(true) == 1 by { BitOfTrue(); }
    StepsKeepParity(Xor(r, 1), 8);
  }

  lemma BitOfTrue()
    ensures Bit(true) == 1 && (1 as bv8) as bv16 == 1
  {
  }

  /** How `modbus_client_read_u16` reads what came back; it does not look at the CRC. */
  function ReadResponse(addr: bv8, rx: seq<bv8>): (int, Option<bv16>) {
    if |rx| != 7 then (-1, None)
    else if rx[0] == addr && rx[1] == READ_HOLDING_REGISTERS then (0, Some(Word(rx[3], rx[4])))
    else (-EIO, None)
  }

  lemma WordOfBytes(w: bv16)
    ensures Word(HighByte(w), LowByte(w)) == w
  {
  }

  lemma WordOfValue(value: bv32)
    ensures Word(ValueHigh(value), ValueLow(value)) == (value & 0xFFFF) as bv16
  {
  }

  /** A read request handled by the server at that address asks for that register, and the client
      takes the low sixteen bits of its value from the answer. */
  lemma ReadRoundTrip<S>(addr: bv8, slaveId: bv8, reg: bv16, registers: Registers<S>, rx: seq<bv8>, value: bv32)
    requires |rx| >= 6 && rx[..6] == ReadBody(addr, reg) && registers.Read(reg) == Some(value)
    ensures Requested(addr, rx) == ReadAccess(reg)
    ensures ReplyTo(addr, slaveId, rx, registers).Answer?
    ensures ReadResponse(addr, Frame(ReplyTo(addr, slaveId, rx, registers).body))
            == (0, Some((value & 0xFFFF) as bv16))
  {
    hide LowByte, HighByte, Word, ValueHigh, ValueLow, Crc;
    assert rx[..6][0] == rx[0] && rx[..6][1] == rx[1] && rx[..6][2] == rx[2] && rx[..6][3] == rx[3];
    WordOfBytes(reg);
    WordOfValue(value);
  }

  /** A write request handled by the server at that address writes that value to that register, and
      is echoed back byte for byte. */
  lemma WriteRoundTrip<S>(addr: bv8, slaveId: bv8, reg: bv16, value: bv16, registers: Registers<S>, rx: seq<bv8>)
    requires |rx| >= 6 && rx[..6] == WriteBody(addr, reg, value) && registers.Write(reg, value).Some?
    ensures Requested(addr, rx) == WriteAccess(reg, value)
    ensures AfterRequest(addr, rx, registers) == registers.Write(reg, value).value
    ensures ReplyTo(addr, slaveId, rx, registers) == Answer(WriteBody(addr, reg, value))
  {
    hide LowByte, HighByte, Word;
    assert rx[..6][0] == rx[0] && rx[..6][1] == rx[1] && rx[..6][2] == rx[2];
    assert rx[..6][3] == rx[3] && rx[..6][4] == rx[4] && rx[..6][5] == rx[5];
    WordOfBytes(reg);
    WordOfBytes(value);
  }

  // ----- what is answered, on the wire

  /** The number two bytes make, the higher one first. */
  function BigEndian(hi: bv8, lo: bv8): bv16 {
    256 * (hi as bv16) + lo as bv16
  }

  lemma WordIsBigEndian(hi: bv8, lo: bv8)
    ensures Word(hi, lo) == BigEndian(hi, lo)
  {
  }

  /** Exactly these requests to the server's own address are answered: functions 3 and 4 for a register that
      can be read, function 6 for one that takes the value, and function 17. A wrong address is refused
      with -22, an access that fails with -1, and any other function with 0; only function 6 changes a
      register. */
  lemma AnsweredIff<S>(addr: bv8, slaveId: bv8, rx: seq<bv8>, registers: Registers<S>)
    requires |rx| >= 6
    ensures var (fc, reply) := (rx[1], ReplyTo(addr, slaveId, rx, registers));
            var (reg, value) := (BigEndian(rx[2], rx[3]), BigEndian(rx[4], rx[5]));
            && (reply.Answer? <==> rx[0] == addr && (((fc == 3 || fc == 4) && registers.Read(reg).Some?)
                                                     || (fc == 6 && registers.Write(reg, value).Some?) || fc == 17))
            && (reply.Refused? ==> reply.code == if rx[0] != addr then -22 else if fc == 3 || fc == 4 || fc == 6 then -1 else 0)
            && (AfterRequest(addr, rx, registers) != registers ==> rx[0] == addr && fc == 6)
  {
    WordIsBigEndian(rx[2], rx[3]);
    WordIsBigEndian(rx[4], rx[5]);
    hide Word, BigEndian, ValueHigh, ValueLow;
  }

  /** A read answers, with either function, two bytes that are the low word of the register; function 17
      answers the one byte of the slave's id. Both begin with the address, the function and that count. */
  lemma AnswersCarry<S>(addr: bv8, slaveId: bv8, rx: seq<bv8>, registers: Registers<S>)
    requires |rx| >= 6 && ReplyTo(addr, slaveId, rx, registers).Answer? && rx[1] != 6
    ensures var body := ReplyTo(addr, slaveId, rx, registers).body;
            var reg := BigEndian(rx[2], rx[3]);
            && |body| >= 3 && body[0] == addr && body[1] == rx[1] && |body| == 3 + body[2] as int
            && (rx[1] == 17 ==> body[2] == 1 && body[3] == slaveId)
            && (rx[1] != 17 ==>
                  && body[2] == 2 && registers.Read(reg).Some?
                  && BigEndian(body[3], body[4]) == LowWordOf(registers.Read(reg).value))
  {
    WordIsBigEndian(rx[2], rx[3]);
    hide Word, BigEndian, ValueHigh, ValueLow, LowWordOf;
    if rx[1] != 17 {
      var value := registers.Read(BigEndian(rx[2], rx[3])).value;
      BytesOfValue(value);
    }
  }

  function LowWordOf(value: bv32): bv16 {
    (value & 0xFFFF) as bv16
  }

  lemma BytesOfValue(value: bv32)
    ensures BigEndian(ValueHigh(value), ValueLow(value)) == LowWordOf(value)
  {
    WordOfValue(value);
    WordIsBigEndian(ValueHigh(value), ValueLow(value));
    hide Word, BigEndian, ValueHigh, ValueLow;
  }

  /** The client takes its value, higher byte first, exactly from seven bytes that begin with the address it
      asked and function 3; any other length is -1 and any other beginning -5. */
  lemma TakenIff(addr: bv8, rx: seq<bv8>)
    ensures var (code, value) := ReadResponse(addr, rx);
            && (value.Some? <==> code == 0)
            && (value.Some? <==> |rx| == 7 && rx[0] == addr && rx[1] == 3)
            && (value.Some? ==> value.value == BigEndian(rx[3], rx[4]))
            && (value.None? ==> code == if |rx| != 7 then -1 else -5)
  {
    if |rx| == 7 {
      WordIsBigEndian(rx[3], rx[4]);
    }
    hide Word, BigEndian;
  }

  // ----- writing, and reading later

  /** Written values are kept, each in its own register. */
  ghost predicate KeepsValues<S(!new)>(r: Registers<S>) {
    forall s: S, reg: bv16, value: bv16 :: r.write(s, reg, value).Some? ==> StoredIn(r, r.write(s, reg, value).value, s, reg, value)
  }

  ghost predicate StoredIn<S>(r: Registers<S>, next: S, before: S, reg: bv16, value: bv16) {
    r.read(next, reg) == Some(value as bv32) && forall other: bv16 :: other != reg ==> r.read(next, other) == r.read(before, other)
  }

  function Served<S>(addr: bv8, registers: Registers<S>, requests: seq<seq<bv8>>): Registers<S>
    requires forall rx :: rx in requests ==> |rx| >= 6
    decreases |requests|
  {
    if requests == [] then registers else Served(addr, AfterRequest(addr, requests[0], registers), requests[1..])
  }

  predicate WritesTo(addr: bv8, rx: seq<bv8>, reg: bv16)
    requires |rx| >= 6
  {
    Requested(addr, rx).WriteAccess? && Requested(addr, rx).start == reg
  }

  /** A request leaves the map the same map, and every register that it does not write. */
  lemma RequestSpares<S(!new)>(addr: bv8, rx: seq<bv8>, r: Registers<S>, reg: bv16)
    requires |rx| >= 6 && KeepsValues(r) && !WritesTo(addr, rx, reg)
    ensures var t := AfterRequest(addr, rx, r); t.read == r.read && t.write == r.write && t.Read(reg) == r.Read(reg)
  {
    hide Requested;
    match Requested(addr, rx) {
      case WriteAccess(start, value) =>
        if r.write(r.state, start, value).Some? {
          assert StoredIn(r, r.write(r.state, start, value).value, r.state, start, value);
        }
      case _ =>
    }
  }

  lemma {:induction false} ServedSpares<S(!new)>(addr: bv8, r: Registers<S>, requests: seq<seq<bv8>>, reg: bv16)
    requires KeepsValues(r)
    requires forall rx :: rx in requests ==> |rx| >= 6 && !WritesTo(addr, rx, reg)
    ensures Served(addr, r, requests).Read(reg) == r.Read(reg)
    decreases |requests|
  {
    if requests != [] {
      assert requests[0] in requests;
      RequestSpares(addr, requests[0], r, reg);
      var t := AfterRequest(addr, requests[0], r);
      assert KeepsValues(t) by { SameMap(r, t); }
      hide KeepsValues, AfterRequest, WritesTo;
      ServedSpares(addr, t, requests[1..], reg);
    }
  }

  lemma SameMap<S(!new)>(r: Registers<S>, t: Registers<S>)
    requires KeepsValues(r) && t.read == r.read && t.write == r.write
    ensures KeepsValues(t)
  {
    forall s: S, reg: bv16, value: bv16 | t.write(s, reg, value).Some?
      ensures StoredIn(t, t.write(s, reg, value).value, s, reg, value)
    {
      assert StoredIn(r, r.write(s, reg, value).value, s, reg, value);
    }
  }

  /** A value written over the bus is what a later read over the bus gets back, whatever is served in between
      but other writes to that register. */
  lemma WriteThenRead<S(!new)>(addr: bv8, slaveId: bv8, reg: bv16, value: bv16, r: Registers<S>,
                               write: seq<bv8>, between: seq<seq<bv8>>, read: seq<bv8>)
    requires KeepsValues(r) && r.Write(reg, value).Some?
    requires |write| >= 6 && write[..6] == WriteBody(addr, reg, value) && |read| >= 6 && read[..6] == ReadBody(addr, reg)
    requires forall rx :: rx in between ==> |rx| >= 6 && !WritesTo(addr, rx, reg)
    ensures var t := Served(addr, AfterRequest(addr, write, r), between);
            && ReplyTo(addr, slaveId, read, t).Answer?
            && ReadResponse(addr, Frame(ReplyTo(addr, slaveId, read, t).body)) == (0, Some(value))
  {
    WriteRoundTrip(addr, slaveId, reg, value, r, write);
    var s := AfterRequest(addr, write, r);
    assert StoredIn(r, r.write(r.state, reg, value).value, r.state, reg, value);
    SameMap(r, s);
    hide KeepsValues, Requested, AfterRequest, ReplyTo, WriteBody, ReadBody, Frame, ReadResponse, WritesTo;
    ServedSpares(addr, s, between, reg);
    ReadRoundTrip(addr, slaveId, reg, Served(addr, s, between), read, value as bv32);
    LowWord(value);
  }

  lemma LowWord(value: bv16)
    ensures (value as bv32 & 0xFFFF) as bv16 == value
  {
  }
}
