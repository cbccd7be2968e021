/** The fixed-size messages of the RoCE storage control protocol: little-endian fields, and
    encoders and decoders that check what they read. */
module Wire {
  import opened Common
  import opened Fields

  // ---------------------------------------------------------------------------
  // Commands

  const MAGIC: nat := 0x464C5243
  const VERSION: nat := 2

  const READ: nat := 1
  const WRITE: nat := 2

  datatype Command = Command(
    requestId: nat, operation: nat, objectId: nat, storageOffset: nat, length: nat, address: nat, rkey: nat,
    access: nat)

  /** Every field has its C type's range. */
  predicate CommandFits(c: Command) {
    && c.requestId < U64 && c.operation < U16 && c.objectId < U64 && c.storageOffset < U64 && c.length < U64
    && c.address < U64 && c.rkey < U32 && c.access < U32
  }

  /** Bit 0 of the access word allows remote writes, bit 1 remote reads. */
  predicate Grants(access: nat, operation: nat) {
    if operation == READ then access % 2 == 1 else access / 2 % 2 == 1
  }

  predicate CommandValid(c: Command) {
    && c.requestId != 0 && c.length != 0 && c.address != 0 && c.rkey != 0
    && Grants(c.access, c.operation) && (c.operation == READ || c.operation == WRITE)
  }

  const COMMAND_WIDTHS: seq<nat> := [4, 2, 2, 8, 8, 8, 8, 8, 4, 4, 8]
  const COMMAND_BYTES := 64

  function CommandFields(c: Command): seq<nat> {
    [MAGIC, VERSION, c.operation, c.requestId, c.objectId, c.storageOffset, c.length, c.address, c.rkey, c.access, 0]
  }

  function EncodeCommand(c: Command): Option<Bytes> {
    if CommandValid(c) then Some(Pack(Little, CommandFields(c), COMMAND_WIDTHS)) else None
  }

  lemma CommandTotal()
    ensures Total(COMMAND_WIDTHS) == COMMAND_BYTES
  {
    assert COMMAND_WIDTHS[1..] == [2, 2, 8, 8, 8, 8, 8, 4, 4, 8];
    assert [2, 2, 8, 8, 8, 8, 8, 4, 4, 8][1..] == [2, 8, 8, 8, 8, 8, 4, 4, 8];
    assert [2, 8, 8, 8, 8, 8, 4, 4, 8][1..] == [8, 8, 8, 8, 8, 4, 4, 8];
    assert [8, 8, 8, 8, 8, 4, 4, 8][1..] == [8, 8, 8, 8, 4, 4, 8];
    assert [8, 8, 8, 8, 4, 4, 8][1..] == [8, 8, 8, 4, 4, 8];
    assert [8, 8, 8, 4, 4, 8][1..] == [8, 8, 4, 4, 8];
    assert [8, 8, 4, 4, 8][1..] == [8, 4, 4, 8];
    assert [8, 4, 4, 8][1..] == [4, 4, 8];
    assert [4, 4, 8][1..] == [4, 8];
    assert [4, 8][1..] == [8];
    assert [8][1..] == [];
  }

  function DecodeCommand(data: Bytes): Option<Command> {
    if |data| != COMMAND_BYTES then None
    else
      CommandTotal();
      var f := Unpack(Little, data, COMMAND_WIDTHS);
      var c := Command(f[3], f[2], f[4], f[5], f[6], f[7], f[8], f[9]);
      if f[0] == MAGIC && f[1] == VERSION && f[10] == 0 && CommandValid(c) then Some(c) else None
  }

  /** Commands survive the wire. */
  lemma CommandRoundTrip(c: Command)
    requires CommandFits(c) && CommandValid(c)
    ensures EncodeCommand(c).Some? && |EncodeCommand(c).value| == COMMAND_BYTES
    ensures DecodeCommand(EncodeCommand(c).value) == Some(c)
  {
    CommandFieldsFit(c);
    CommandTotal();
    UnpackPack(Little, CommandFields(c), COMMAND_WIDTHS);
    DecodedCommand(EncodeCommand(c).value, CommandFields(c));
  }

  lemma CommandFieldsFit(c: Command)
    requires CommandFits(c)
    ensures Fitting(CommandFields(c), COMMAND_WIDTHS)
  {
    Powers();
  }

  lemma DecodedCommand(data: Bytes, f: seq<nat>)
    requires |data| == COMMAND_BYTES == Total(COMMAND_WIDTHS) && Unpack(Little, data, COMMAND_WIDTHS) == f
    ensures var c := Command(f[3], f[2], f[4], f[5], f[6], f[7], f[8], f[9]);
            DecodeCommand(data) == if f[0] == MAGIC && f[1] == VERSION && f[10] == 0 && CommandValid(c) then Some(c)
              else None
  {
  }

  lemma CommandOfFields(f: seq<nat>)
    requires Fitting(f, COMMAND_WIDTHS) && f[0] == MAGIC && f[1] == VERSION && f[10] == 0
    ensures var c := Command(f[3], f[2], f[4], f[5], f[6], f[7], f[8], f[9]); CommandFits(c) && CommandFields(c) == f
  {
    Powers();
    assert f[2] < Pow256(COMMAND_WIDTHS[2]) && f[3] < Pow256(COMMAND_WIDTHS[3]) && f[4] < Pow256(COMMAND_WIDTHS[4]);
    assert f[5] < Pow256(COMMAND_WIDTHS[5]) && f[6] < Pow256(COMMAND_WIDTHS[6]) && f[7] < Pow256(COMMAND_WIDTHS[7]);
    assert f[8] < Pow256(COMMAND_WIDTHS[8]) && f[9] < Pow256(COMMAND_WIDTHS[9]);
  }

  /** A command can be sent exactly if its id, length, address and key are there, and its memory
      is open to the access it needs: a read writes it (bit 0), a write reads it (bit 1). */
  lemma CommandSendable(c: Command)
    ensures EncodeCommand(c).Some? <==>
            && c.requestId != 0 && c.length != 0 && c.address != 0 && c.rkey != 0
            && ((c.operation == 1 && c.access % 2 == 1) || (c.operation == 2 && c.access / 2 % 2 == 1))
  {
  }

  /** `value` is the little-endian field of `width` bytes at `at`. */
  predicate FieldAt(data: Bytes, at: nat, width: nat, value: nat) {
    at + width <= |data| && data[at..at + width] == Encode(Little, value, width)
  }

  lemma CommandOffsets()
    ensures var w := COMMAND_WIDTHS;
            && Offset(w, 0) == 0 && Offset(w, 1) == 4 && Offset(w, 2) == 6 && Offset(w, 3) == 8 && Offset(w, 4) == 16
            && Offset(w, 5) == 24 && Offset(w, 6) == 32 && Offset(w, 7) == 40 && Offset(w, 8) == 48
            && Offset(w, 9) == 52 && Offset(w, 10) == 56
  {
    assert Offset(COMMAND_WIDTHS, 2) == 6;
    assert Offset(COMMAND_WIDTHS, 4) == 16;
    assert Offset(COMMAND_WIDTHS, 6) == 32;
    assert Offset(COMMAND_WIDTHS, 8) == 48;
  }

  /** The 64 bytes of a command, field by field. */
  lemma CommandLayout(c: Command)
    requires CommandValid(c)
    ensures var data := EncodeCommand(c).value;
            && FieldAt(data, 0, 4, 0x464C5243) && FieldAt(data, 4, 2, 2) && FieldAt(data, 6, 2, c.operation)
            && FieldAt(data, 8, 8, c.requestId) && FieldAt(data, 16, 8, c.objectId)
            && FieldAt(data, 24, 8, c.storageOffset) && FieldAt(data, 32, 8, c.length)
            && FieldAt(data, 40, 8, c.address) && FieldAt(data, 48, 4, c.rkey) && FieldAt(data, 52, 4, c.access)
            && FieldAt(data, 56, 8, 0)
  {
    CommandOffsets();
    var v := CommandFields(c);
    forall i | 0 <= i < 11
      ensures FieldAt(EncodeCommand(c).value, Offset(COMMAND_WIDTHS, i), COMMAND_WIDTHS[i], v[i])
    {
      PackAt(Little, v, COMMAND_WIDTHS, i);
    }
    var data := EncodeCommand(c).value;
    assert FieldAt(data, Offset(COMMAND_WIDTHS, 0), 4, v[0]) && FieldAt(data, Offset(COMMAND_WIDTHS, 1), 2, v[1]);
    assert FieldAt(data, Offset(COMMAND_WIDTHS, 2), 2, v[2]) && FieldAt(data, Offset(COMMAND_WIDTHS, 3), 8, v[3]);
    assert FieldAt(data, Offset(COMMAND_WIDTHS, 4), 8, v[4]) && FieldAt(data, Offset(COMMAND_WIDTHS, 5), 8, v[5]);
    assert FieldAt(data, Offset(COMMAND_WIDTHS, 6), 8, v[6]) && FieldAt(data, Offset(COMMAND_WIDTHS, 7), 8, v[7]);
    assert FieldAt(data, Offset(COMMAND_WIDTHS, 8), 4, v[8]) && FieldAt(data, Offset(COMMAND_WIDTHS, 9), 4, v[9]);
    assert FieldAt(data, Offset(COMMAND_WIDTHS, 10), 8, v[10]);
  }

  /** The decoder accepts exactly what the encoder produces. */
  lemma CommandCanonical(data: Bytes)
    ensures DecodeCommand(data).Some? <==> exists c :: CommandFits(c) && EncodeCommand(c) == Some(data)
    ensures DecodeCommand(data).Some? ==>
              CommandFits(DecodeCommand(data).value) && EncodeCommand(DecodeCommand(data).value) == Some(data)
  {
    CommandTotal();
    if DecodeCommand(data).Some? {
      var f := Unpack(Little, data, COMMAND_WIDTHS);
      PackUnpack(Little, data, COMMAND_WIDTHS);
      DecodedCommand(data, f);
      CommandOfFields(f);
    }
    forall c | CommandFits(c) && EncodeCommand(c) == Some(data)
      ensures DecodeCommand(data).Some?
    {
      CommandRoundTrip(c);
    }
  }

  // ---------------------------------------------------------------------------
  // Completions

  datatype Completion = Completion(requestId: nat, status: nat, bytes: nat, checksum: nat, flags: nat)

  predicate CompletionFits(c: Completion) {
    c.requestId < U64 && c.status < U32 && c.bytes < U64 && c.checksum < U32 && c.flags < U32
  }

  const COMPLETION_WIDTHS: seq<nat> := [4, 2, 2, 8, 8, 4, 4, 8]
  const COMPLETION_BYTES := 40

  /** The status is a 32-bit field in memory and a 16-bit field on the wire. */
  function CompletionFields(c: Completion): seq<nat> {
    [MAGIC, VERSION, c.status % U16, c.requestId, c.bytes, c.checksum, c.flags, 0]
  }

  function EncodeCompletion(c: Completion): Option<Bytes> {
    if c.requestId != 0 then Some(Pack(Little, CompletionFields(c), COMPLETION_WIDTHS)) else None
  }

  lemma CompletionTotal()
    ensures Total(COMPLETION_WIDTHS) == COMPLETION_BYTES
  {
    assert COMPLETION_WIDTHS[1..] == [2, 2, 8, 8, 4, 4, 8];
    assert [2, 2, 8, 8, 4, 4, 8][1..] == [2, 8, 8, 4, 4, 8];
    assert [2, 8, 8, 4, 4, 8][1..] == [8, 8, 4, 4, 8];
    assert [8, 8, 4, 4, 8][1..] == [8, 4, 4, 8];
    assert [8, 4, 4, 8][1..] == [4, 4, 8];
    assert [4, 4, 8][1..] == [4, 8];
    assert [4, 8][1..] == [8];
    assert [8][1..] == [];
  }

  function DecodeCompletion(data: Bytes): Option<Completion> {
    if |data| != COMPLETION_BYTES then None
    else
      CompletionTotal();
      var f := Unpack(Little, data, COMPLETION_WIDTHS);
      if f[0] == MAGIC && f[1] == VERSION && f[7] == 0 && f[3] != 0
      then Some(Completion(f[3], f[2], f[4], f[5], f[6]))
      else None
  }

  /** A completion survives the wire exactly when its status fits in 16 bits; otherwise only
      the low half of the status arrives. */
  lemma CompletionRoundTrip(c: Completion)
    requires CompletionFits(c) && c.requestId != 0
    ensures EncodeCompletion(c).Some? && |EncodeCompletion(c).value| == COMPLETION_BYTES
    ensures DecodeCompletion(EncodeCompletion(c).value) == Some(c.(status := c.status % U16))
    ensures DecodeCompletion(EncodeCompletion(c).value) == Some(c) <==> c.status < U16
  {
    CompletionFieldsFit(c);
    CompletionTotal();
    UnpackPack(Little, CompletionFields(c), COMPLETION_WIDTHS);
    DecodedCompletion(EncodeCompletion(c).value, CompletionFields(c));
  }

  lemma CompletionFieldsFit(c: Completion)
    requires CompletionFits(c)
    ensures Fitting(CompletionFields(c), COMPLETION_WIDTHS)
  {
    Powers();
  }

  lemma DecodedCompletion(data: Bytes, f: seq<nat>)
    requires |data| == COMPLETION_BYTES == Total(COMPLETION_WIDTHS) && Unpack(Little, data, COMPLETION_WIDTHS) == f
    ensures DecodeCompletion(data) ==
            if f[0] == MAGIC && f[1] == VERSION && f[7] == 0 && f[3] != 0
              then Some(Completion(f[3], f[2], f[4], f[5], f[6])) else None
  {
  }

  lemma CompletionOffsets()
    ensures var w := COMPLETION_WIDTHS;
            && Offset(w, 0) == 0 && Offset(w, 1) == 4 && Offset(w, 2) == 6 && Offset(w, 3) == 8 && Offset(w, 4) == 16
            && Offset(w, 5) == 24 && Offset(w, 6) == 28 && Offset(w, 7) == 32
  {
    assert Offset(COMPLETION_WIDTHS, 2) == 6;
    assert Offset(COMPLETION_WIDTHS, 4) == 16;
    assert Offset(COMPLETION_WIDTHS, 6) == 28;
  }

  /** The 40 bytes of a completion, field by field. */
  lemma CompletionLayout(c: Completion)
    requires c.requestId != 0
    ensures var data := EncodeCompletion(c).value;
            && FieldAt(data, 0, 4, 0x464C5243) && FieldAt(data, 4, 2, 2) && FieldAt(data, 6, 2, c.status % 0x1_0000)
            && FieldAt(data, 8, 8, c.requestId) && FieldAt(data, 16, 8, c.bytes) && FieldAt(data, 24, 4, c.checksum)
            && FieldAt(data, 28, 4, c.flags) && FieldAt(data, 32, 8, 0)
  {
    CompletionOffsets();
    var v := CompletionFields(c);
    forall i | 0 <= i < 8
      ensures FieldAt(EncodeCompletion(c).value, Offset(COMPLETION_WIDTHS, i), COMPLETION_WIDTHS[i], v[i])
    {
      PackAt(Little, v, COMPLETION_WIDTHS, i);
    }
    var data := EncodeCompletion(c).value;
    assert FieldAt(data, Offset(COMPLETION_WIDTHS, 0), 4, v[0]) && FieldAt(data, Offset(COMPLETION_WIDTHS, 1), 2, v[1]);
    assert FieldAt(data, Offset(COMPLETION_WIDTHS, 2), 2, v[2]) && FieldAt(data, Offset(COMPLETION_WIDTHS, 3), 8, v[3]);
    assert FieldAt(data, Offset(COMPLETION_WIDTHS, 4), 8, v[4]) && FieldAt(data, Offset(COMPLETION_WIDTHS, 5), 4, v[5]);
    assert FieldAt(data, Offset(COMPLETION_WIDTHS, 6), 4, v[6]) && FieldAt(data, Offset(COMPLETION_WIDTHS, 7), 8, v[7]);
  }

  /** A status whose low half is zero arrives as success. */
  lemma TruncatedStatusLooksSuccessful()
    ensures DecodeCompletion(EncodeCompletion(Completion(1, U16, 0, 0, 0)).value) == Some(Completion(1, 0, 0, 0, 0))
  {
    CompletionRoundTrip(Completion(1, U16, 0, 0, 0));
  }

  /** Decoding then encoding gives the same bytes, so a relayed completion is unchanged. */
  lemma CompletionCanonical(data: Bytes)
    requires DecodeCompletion(data).Some?
    ensures CompletionFits(DecodeCompletion(data).value) && DecodeCompletion(data).value.status < U16
    ensures EncodeCompletion(DecodeCompletion(data).value) == Some(data)
  {
    CompletionTotal();
    PackUnpack(Little, data, COMPLETION_WIDTHS);
    var f := Unpack(Little, data, COMPLETION_WIDTHS);
    DecodedCompletion(data, f);
    CompletionOfFields(f);
  }

  lemma CompletionOfFields(f: seq<nat>)
    requires Fitting(f, COMPLETION_WIDTHS) && f[0] == MAGIC && f[1] == VERSION && f[7] == 0
    ensures var c := Completion(f[3], f[2], f[4], f[5], f[6]);
            CompletionFits(c) && c.status < U16 && CompletionFields(c) == f
  {
    Powers();
    assert f[2] < Pow256(COMPLETION_WIDTHS[2]) && f[3] < Pow256(COMPLETION_WIDTHS[3]);
    assert f[4] < Pow256(COMPLETION_WIDTHS[4]) && f[5] < Pow256(COMPLETION_WIDTHS[5]);
    assert f[6] < Pow256(COMPLETION_WIDTHS[6]);
  }
}
