/** The messages of a link and their encoding as bytes. */
module Messages {
  import opened Protocol
  import opened BigEndian

  type U128 = n: int | 0 <= n < 0x1_0000_0000_0000_0000_0000_0000_0000_0000
  type ServerId = n: U128 | n != 0 witness 1
  type PublicKey = b: Bytes | |b| == 32 witness seq(32, _ => 0)
  type BufferSize = n: U32 | n != 0 witness 1

  datatype RefusedReason = Closed | NotListening | ConnectionRefused | LinkRefused

  datatype LinkMsg =
    | Welcome(extensions: U32, publicKey: PublicKey, serverId: ServerId, userData: Bytes, recvBuffer: BufferSize)
    | Connect(extensions: U32, publicKey: PublicKey, server: Option<ServerId>, connectionId: U128, existing: bool,
              userData: Bytes, recvBuffer: BufferSize)
    | Accepted
    | Refused(reason: RefusedReason)
    | Ping
    | Pong
    | Data(num: U32)
    | Ack(received: U32)
    | Consumed(num: U32, consumed: U32)
    | SendFinish(num: U32)
    | ReceiveClose(num: U32)
    | ReceiveFinish(num: U32)
    | TestData(size: nat)
    | SetBlock(blocked: bool)
    | Goodbye
    | Terminate

  const PROTOCOL_VERSION: Byte := 4
  const MAGIC: Bytes := [0x4c, 0x49, 0x41, 0x47, 0]

  // --------------------------------------------------------------------------- writing

  function ReasonCode(r: RefusedReason): Byte {
    match r
    case Closed => 1
    case NotListening => 2
    case ConnectionRefused => 3
    case LinkRefused => 4
  }

  function FlagCode(b: bool): Byte {
    if b then 1 else 0
  }

  /** The length of the user data is a 16-bit number. */
  predicate Writable(m: LinkMsg) {
    m.Welcome? || m.Connect? ==> |m.userData| < 0x1_0000
  }

  function TestBytes(n: nat): (b: Bytes)
    ensures |b| == n
  {
    seq(n, i => (i % 256) as Byte)
  }

  function Closing(userData: Bytes, recvBuffer: nat, after: Bytes): Bytes {
    ToBytes(|userData|, 2) + (userData + (ToBytes(recvBuffer, 4) + after))
  }

  function Greeting(extensions: nat, publicKey: Bytes, after: Bytes): Bytes {
    MAGIC + ([PROTOCOL_VERSION] + (ToBytes(extensions, 4) + (publicKey + after)))
  }

  function ConnectBytes(m: LinkMsg, flag: Byte, after: Bytes): Bytes
    requires m.Connect?
  {
    var server := if m.server.Some? then m.server.value else 0;
    [2] + Greeting(m.extensions, m.publicKey,
                   ToBytes(server, 16) + (ToBytes(m.connectionId, 16) + ([flag] + Closing(m.userData, m.recvBuffer, after))))
  }

  /** The bytes of a message, in front of the bytes `after`. */
  function Print(m: LinkMsg, after: Bytes): Bytes {
    match m
    case Welcome(extensions, publicKey, serverId, userData, recvBuffer) =>
      [1] + Greeting(extensions, publicKey, ToBytes(serverId, 16) + Closing(userData, recvBuffer, after))
    case Connect(_, _, _, _, existing, _, _) => ConnectBytes(m, FlagCode(existing), after)
    case Accepted => [3] + after
    case Refused(reason) => [4] + ([ReasonCode(reason)] + after)
    case Ping => [5] + after
    case Pong => [6] + after
    case Data(num) => [7] + (ToBytes(num, 4) + after)
    case Ack(received) => [8] + (ToBytes(received, 4) + after)
    case Consumed(num, consumed) => [9] + (ToBytes(num, 4) + (ToBytes(consumed, 4) + after))
    case SendFinish(num) => [10] + (ToBytes(num, 4) + after)
    case ReceiveClose(num) => [11] + (ToBytes(num, 4) + after)
    case ReceiveFinish(num) => [12] + (ToBytes(num, 4) + after)
    case TestData(size) => [13] + (TestBytes(size) + after)
    case SetBlock(blocked) => [14] + ([FlagCode(blocked)] + after)
    case Goodbye => [15] + after
    case Terminate => [16] + after
  }

  function Encoding(m: LinkMsg): Bytes {
    Print(m, [])
  }

  // --------------------------------------------------------------------------- reading

  datatype ReadError =
    | UnexpectedEof
    | InvalidMagic
    | WrongVersion(version: Byte)
    | ZeroServerId
    | ZeroRecvBuffer
    | UnknownReason(code: Byte)
    | InvalidId(code: Byte)

  /** A value read from the front of some bytes, and the bytes behind it. */
  datatype Reading<+T> = Value(value: T, rest: Bytes) | Bad(error: ReadError) {
    predicate IsFailure() { Bad? }
    function PropagateFailure<U>(): Reading<U> requires Bad? { Bad(error) }
    function Extract(): (T, Bytes) requires Value? { (value, rest) }
  }

  function ReadExact(k: nat, src: Bytes): Reading<Bytes> {
    if |src| < k then Bad(UnexpectedEof) else Value(src[..k], src[k..])
  }

  function ReadNat(k: nat, src: Bytes): (r: Reading<nat>)
    ensures r.Value? ==> r.value < Pow256(k)
  {
    if |src| < k then Bad(UnexpectedEof) else Value(FromBytes(src[..k]), src[k..])
  }

  function ReadByte(src: Bytes): Reading<Byte> {
    if src == [] then Bad(UnexpectedEof) else Value(src[0], src[1..])
  }

  function ReadU16(src: Bytes): Reading<U16> {
    Sizes();
    var (n, s) :- ReadNat(2, src);
    Value(n, s)
  }

  function ReadU32(src: Bytes): Reading<U32> {
    Sizes();
    var (n, s) :- ReadNat(4, src);
    Value(n, s)
  }

  function ReadU128(src: Bytes): Reading<U128> {
    Sizes();
    var (n, s) :- ReadNat(16, src);
    Value(n, s)
  }

  function ReasonOf(code: Byte): Option<RefusedReason> {
    match code
    case 1 => Some(Closed)
    case 2 => Some(NotListening)
    case 3 => Some(ConnectionRefused)
    case 4 => Some(LinkRefused)
    case _ => None
  }

  /** Magic and version, then the fields that both greetings begin with. */
  function ReadGreeting(src: Bytes): Reading<(U32, PublicKey)> {
    var (magic, s1) :- ReadExact(|MAGIC|, src);
    if magic != MAGIC then Bad(InvalidMagic)
    else
      var (version, s2) :- ReadByte(s1);
      if version != PROTOCOL_VERSION then Bad(WrongVersion(version))
      else
        var (extensions, s3) :- ReadU32(s2);
        var (publicKey, s4) :- ReadExact(32, s3);
        Value((extensions, publicKey), s4)
  }

  function ReadTail(src: Bytes): Reading<(Bytes, BufferSize)> {
    var (length, s1) :- ReadU16(src);
    var (userData, s2) :- ReadExact(length, s1);
    var (recvBuffer, s3) :- ReadU32(s2);
    if recvBuffer == 0 then Bad(ZeroRecvBuffer) else Value((userData, recvBuffer), s3)
  }

  function ReadWelcome(src: Bytes): Reading<LinkMsg> {
    var (greeting, s1) :- ReadGreeting(src);
    var (serverId, s2) :- ReadU128(s1);
    if serverId == 0 then Bad(ZeroServerId)
    else
      var (tail, s3) :- ReadTail(s2);
      Value(Welcome(greeting.0, greeting.1, serverId, tail.0, tail.1), s3)
  }

  function ReadConnect(src: Bytes): Reading<LinkMsg> {
    var (greeting, s1) :- ReadGreeting(src);
    var (server, s2) :- ReadU128(s1);
    var (connectionId, s3) :- ReadU128(s2);
    var (existing, s4) :- ReadByte(s3);
    var (tail, s5) :- ReadTail(s4);
    Value(Connect(greeting.0, greeting.1, if server == 0 then None else Some(server), connectionId, existing != 0,
                  tail.0, tail.1), s5)
  }

  /** Reads a message; bytes behind it are ignored by the caller, but they are test data of a test message. */
  function Read(src: Bytes): Reading<LinkMsg> {
    var (id, s) :- ReadByte(src);
    match id
    case 1 => ReadWelcome(s)
    case 2 => ReadConnect(s)
    case 3 => Value(Accepted, s)
    case 4 =>
      var (code, s') :- ReadByte(s);
      if ReasonOf(code).None? then Bad(UnknownReason(code)) else Value(LinkMsg.Refused(ReasonOf(code).value), s')
    case 5 => Value(Ping, s)
    case 6 => Value(Pong, s)
    case 7 =>
      var (num, s') :- ReadU32(s);
      Value(LinkMsg.Data(num), s')
    case 8 =>
      var (num, s') :- ReadU32(s);
      Value(Ack(num), s')
    case 9 =>
      var (num, s1) :- ReadU32(s);
      var (consumed, s2) :- ReadU32(s1);
      Value(LinkMsg.Consumed(num, consumed), s2)
    case 10 =>
      var (num, s') :- ReadU32(s);
      Value(LinkMsg.SendFinish(num), s')
    case 11 =>
      var (num, s') :- ReadU32(s);
      Value(LinkMsg.ReceiveClose(num), s')
    case 12 =>
      var (num, s') :- ReadU32(s);
      Value(LinkMsg.ReceiveFinish(num), s')
    case 13 => Value(TestData(|s|), [])
    case 14 =>
      var (blocked, s') :- ReadByte(s);
      Value(SetBlock(blocked != 0), s')
    case 15 => Value(Goodbye, s)
    case 16 => Value(Terminate, s)
    case _ => Bad(InvalidId(id))
  }

  // ------------------------------------------------------------- what each reader accepts

  lemma NatIsSpelled(k: nat, src: Bytes, n: nat, rest: Bytes)
    ensures ReadNat(k, src) == Value(n, rest) <==> n < Pow256(k) && src == ToBytes(n, k) + rest
  {
    if n < Pow256(k) && src == ToBytes(n, k) + rest {
      ReadsBack(n, k);
      assert src[..k] == ToBytes(n, k) && src[k..] == rest;
    }
    if |src| >= k {
      WritesBack(src[..k]);
      assert src == src[..k] + src[k..];
    }
  }

  lemma U16IsSpelled(src: Bytes, n: U16, rest: Bytes)
    ensures ReadU16(src) == Value(n, rest) <==> src == ToBytes(n, 2) + rest
  {
    Sizes();
    NatIsSpelled(2, src, n, rest);
  }

  lemma U32IsSpelled(src: Bytes, n: U32, rest: Bytes)
    ensures ReadU32(src) == Value(n, rest) <==> src == ToBytes(n, 4) + rest
  {
    Sizes();
    NatIsSpelled(4, src, n, rest);
  }

  lemma U128IsSpelled(src: Bytes, n: U128, rest: Bytes)
    ensures ReadU128(src) == Value(n, rest) <==> src == ToBytes(n, 16) + rest
  {
    Sizes();
    NatIsSpelled(16, src, n, rest);
  }

  lemma ExactIsSpelled(k: nat, src: Bytes, b: Bytes, rest: Bytes)
    ensures ReadExact(k, src) == Value(b, rest) <==> |b| == k && src == b + rest
  {
    if |b| == k && src == b + rest {
      assert src[..k] == b && src[k..] == rest;
    }
    if |src| >= k {
      assert src == src[..k] + src[k..];
    }
  }

  lemma ByteIsSpelled(src: Bytes, b: Byte, rest: Bytes)
    ensures ReadByte(src) == Value(b, rest) <==> src == [b] + rest
  {
    if src == [b] + rest {
      assert src[1..] == rest;
    }
    if src != [] {
      assert src == [src[0]] + src[1..];
    }
  }

  lemma GreetingIsSpelled(src: Bytes, extensions: U32, publicKey: PublicKey, rest: Bytes)
    ensures ReadGreeting(src) == Value((extensions, publicKey), rest) <==> src == Greeting(extensions, publicKey, rest)
  {
    hide ReadExact, ReadByte, ReadU32, ToBytes;
    if src == Greeting(extensions, publicKey, rest) {
      var s3 := publicKey + rest;
      var s2 := ToBytes(extensions, 4) + s3;
      var s1 := [PROTOCOL_VERSION] + s2;
      ExactIsSpelled(|MAGIC|, src, MAGIC, s1);
      ByteIsSpelled(s1, PROTOCOL_VERSION, s2);
      U32IsSpelled(s2, extensions, s3);
      ExactIsSpelled(32, s3, publicKey, rest);
    }
    if ReadGreeting(src) == Value((extensions, publicKey), rest) {
      var r1 := ReadExact(|MAGIC|, src);
      var r2 := ReadByte(r1.rest);
      var r3 := ReadU32(r2.rest);
      ExactIsSpelled(|MAGIC|, src, MAGIC, r1.rest);
      ByteIsSpelled(r1.rest, PROTOCOL_VERSION, r2.rest);
      U32IsSpelled(r2.rest, extensions, r3.rest);
      ExactIsSpelled(32, r3.rest, publicKey, rest);
    }
  }

  lemma TailIsSpelled(src: Bytes, userData: Bytes, recvBuffer: BufferSize, rest: Bytes)
    ensures ReadTail(src) == Value((userData, recvBuffer), rest) <==>
            |userData| < 0x1_0000 && src == Closing(userData, recvBuffer, rest)
  {
    hide ReadExact, ReadU16, ReadU32, ToBytes;
    if |userData| < 0x1_0000 && src == Closing(userData, recvBuffer, rest) {
      var s2 := ToBytes(recvBuffer, 4) + rest;
      var s1 := userData + s2;
      U16IsSpelled(src, |userData|, s1);
      ExactIsSpelled(|userData|, s1, userData, s2);
      U32IsSpelled(s2, recvBuffer, rest);
    }
    if ReadTail(src) == Value((userData, recvBuffer), rest) {
      var r1 := ReadU16(src);
      var r2 := ReadExact(r1.value, r1.rest);
      U16IsSpelled(src, r1.value, r1.rest);
      ExactIsSpelled(r1.value, r1.rest, userData, r2.rest);
      U32IsSpelled(r2.rest, recvBuffer, rest);
    }
  }

  /** `src` spells `m`, with `rest` behind it.  A flag may be any non-zero byte, test data any bytes. */
  ghost predicate Spells(src: Bytes, m: LinkMsg, rest: Bytes) {
    match m
    case Connect(_, _, _, _, existing, _, _) =>
      Writable(m) && exists flag: Byte :: (flag != 0 <==> existing) && src == ConnectBytes(m, flag, rest)
    case SetBlock(blocked) => exists flag: Byte :: (flag != 0 <==> blocked) && src == [14] + ([flag] + rest)
    case TestData(size) => rest == [] && exists data: Bytes :: |data| == size && src == [13] + data
    case _ => Writable(m) && src == Print(m, rest)
  }

  lemma WelcomeIsSpelled(src: Bytes, m: LinkMsg, rest: Bytes)
    requires m.Welcome?
    ensures ReadWelcome(src) == Value(m, rest) <==> Writable(m) && [1] + src == Print(m, rest)
  {
    hide ReadGreeting, ReadU128, ReadTail, ToBytes, Greeting, Closing;
    var s2 := Closing(m.userData, m.recvBuffer, rest);
    var s1 := ToBytes(m.serverId, 16) + s2;
    assert [1] + src == Print(m, rest) <==> src == Greeting(m.extensions, m.publicKey, s1) by {
      SameBehind(1, src, Greeting(m.extensions, m.publicKey, s1));
    }
    if Writable(m) && [1] + src == Print(m, rest) {
      GreetingIsSpelled(src, m.extensions, m.publicKey, s1);
      U128IsSpelled(s1, m.serverId, s2);
      TailIsSpelled(s2, m.userData, m.recvBuffer, rest);
    }
    if ReadWelcome(src) == Value(m, rest) {
      var r1 := ReadGreeting(src);
      var r2 := ReadU128(r1.rest);
      GreetingIsSpelled(src, m.extensions, m.publicKey, r1.rest);
      U128IsSpelled(r1.rest, m.serverId, r2.rest);
      TailIsSpelled(r2.rest, m.userData, m.recvBuffer, rest);
    }
  }

  lemma SameBehind(b: Byte, s: Bytes, t: Bytes)
    ensures [b] + s == [b] + t <==> s == t
  {
    assert ([b] + s)[1..] == s && ([b] + t)[1..] == t;
  }

  function ServerCode(server: Option<ServerId>): U128 {
    if server.Some? then server.value else 0
  }

  lemma ConnectIsRead(src: Bytes, m: LinkMsg, flag: Byte, rest: Bytes)
    requires m.Connect? && Writable(m) && (flag != 0 <==> m.existing)
    requires [2] + src == ConnectBytes(m, flag, rest)
    ensures ReadConnect(src) == Value(m, rest)
  {
    hide ReadGreeting, ReadU128, ReadByte, ReadTail, ToBytes, Greeting, Closing;
    var s4 := Closing(m.userData, m.recvBuffer, rest);
    var s3 := [flag] + s4;
    var s2 := ToBytes(m.connectionId, 16) + s3;
    var s1 := ToBytes(ServerCode(m.server), 16) + s2;
    SameBehind(2, src, Greeting(m.extensions, m.publicKey, s1));
    GreetingIsSpelled(src, m.extensions, m.publicKey, s1);
    U128IsSpelled(s1, ServerCode(m.server), s2);
    U128IsSpelled(s2, m.connectionId, s3);
    ByteIsSpelled(s3, flag, s4);
    TailIsSpelled(s4, m.userData, m.recvBuffer, rest);
  }

  lemma ConnectWasSpelled(src: Bytes, m: LinkMsg, rest: Bytes)
    requires m.Connect? && ReadConnect(src) == Value(m, rest)
    ensures Spells([2] + src, m, rest)
  {
    hide ReadGreeting, ReadU128, ReadByte, ReadTail, ToBytes, Greeting, Closing;
    var r1 := ReadGreeting(src);
    var r2 := ReadU128(r1.rest);
    var r3 := ReadU128(r2.rest);
    var r4 := ReadByte(r3.rest);
    GreetingIsSpelled(src, m.extensions, m.publicKey, r1.rest);
    U128IsSpelled(r1.rest, ServerCode(m.server), r2.rest);
    U128IsSpelled(r2.rest, m.connectionId, r3.rest);
    ByteIsSpelled(r3.rest, r4.value, r4.rest);
    TailIsSpelled(r4.rest, m.userData, m.recvBuffer, rest);
    assert [2] + src == ConnectBytes(m, r4.value, rest);
  }

  lemma ReadIsSpelled(src: Bytes, m: LinkMsg, rest: Bytes)
    requires Read(src) == Value(m, rest)
    ensures Spells(src, m, rest)
  {
    hide ReadWelcome, ReadConnect, ReadU32, ConnectBytes, ToBytes;
    var s := src[1..];
    ByteIsSpelled(src, src[0], s);
    WelcomeKind(s);
    ConnectKind(s);
    if m.Welcome? {
      WelcomeIsSpelled(s, m, rest);
    } else if m.Connect? {
      ConnectWasSpelled(s, m, rest);
    } else {
      ShortIsSpelled(src, m, rest);
    }
  }

  lemma ShortIsSpelled(src: Bytes, m: LinkMsg, rest: Bytes)
    requires Read(src) == Value(m, rest) && !m.Welcome? && !m.Connect?
    ensures Spells(src, m, rest)
  {
    hide ReadByte, ReadWelcome, ReadConnect, ReadU32, ConnectBytes, ToBytes, Greeting, Closing;
    ByteWasSpelled(src);
    var s := ReadByte(src).rest;
    WelcomeKind(s);
    ConnectKind(s);
    ByteWasSpelled(s);
    U32WasSpelled(s);
    if m.Consumed? {
      U32WasSpelled(ReadU32(s).rest);
    }
  }

  lemma U32WasSpelled(src: Bytes)
    ensures ReadU32(src).Value? ==> src == ToBytes(ReadU32(src).value, 4) + ReadU32(src).rest
  {
    if ReadU32(src).Value? {
      U32IsSpelled(src, ReadU32(src).value, ReadU32(src).rest);
    }
  }

  lemma ByteWasSpelled(src: Bytes)
    ensures ReadByte(src).Value? ==> src == [ReadByte(src).value] + ReadByte(src).rest
  {
  }

  lemma WelcomeKind(src: Bytes)
    ensures ReadWelcome(src).Value? ==> ReadWelcome(src).value.Welcome?
  {
  }

  lemma ConnectKind(src: Bytes)
    ensures ReadConnect(src).Value? ==> ReadConnect(src).value.Connect?
  {
  }

  lemma SpelledIsRead(src: Bytes, m: LinkMsg, rest: Bytes)
    requires Spells(src, m, rest)
    ensures Read(src) == Value(m, rest)
  {
    hide ReadByte, ReadWelcome, ReadConnect, ReadU32, Greeting, Closing, ToBytes;
    var id, s := src[0], src[1..];
    ByteIsSpelled(src, id, s);
    match m
    case Welcome(_, _, _, _, _) => WelcomeIsSpelled(s, m, rest);
    case Connect(_, _, _, _, existing, _, _) =>
      var flag: Byte :| (flag != 0 <==> existing) && src == ConnectBytes(m, flag, rest);
      ConnectIsRead(s, m, flag, rest);
    case _ =>
      hide Read, Spells;
      ShortIsRead(src, m, rest);
  }

  lemma ShortIsRead(src: Bytes, m: LinkMsg, rest: Bytes)
    requires Spells(src, m, rest) && !m.Welcome? && !m.Connect?
    ensures Read(src) == Value(m, rest)
  {
    hide ReadByte, ReadWelcome, ReadConnect, ReadU32, Greeting, Closing, ToBytes, ConnectBytes;
    var id, s := src[0], src[1..];
    ByteIsSpelled(src, id, s);
    match m
    case Refused(reason) => ByteIsSpelled(s, ReasonCode(reason), rest);
    case SetBlock(blocked) =>
      var flag: Byte :| (flag != 0 <==> blocked) && src == [14] + ([flag] + rest);
      ByteIsSpelled(s, flag, rest);
    case Consumed(num, consumed) =>
      U32IsSpelled(s, num, ToBytes(consumed, 4) + rest);
      U32IsSpelled(ToBytes(consumed, 4) + rest, consumed, rest);
    case Data(num) => U32IsSpelled(s, num, rest);
    case Ack(num) => U32IsSpelled(s, num, rest);
    case SendFinish(num) => U32IsSpelled(s, num, rest);
    case ReceiveClose(num) => U32IsSpelled(s, num, rest);
    case ReceiveFinish(num) => U32IsSpelled(s, num, rest);
    case _ =>
  }

  /** Reading accepts exactly the spellings of a message, and no bytes spell two messages. */
  lemma ReadsExactlySpellings(src: Bytes, m: LinkMsg, rest: Bytes)
    ensures Read(src) == Value(m, rest) <==> Spells(src, m, rest)
  {
    if Read(src) == Value(m, rest) {
      ReadIsSpelled(src, m, rest);
    }
    if Spells(src, m, rest) {
      SpelledIsRead(src, m, rest);
    }
  }

  /** Every message that can be written is read back, whatever follows; only test data swallows what follows. */
  lemma WrittenIsRead(m: LinkMsg, after: Bytes)
    requires Writable(m)
    ensures Read(Print(m, after)) == if m.TestData? then Value(TestData(m.size + |after|), []) else Value(m, after)
    ensures Read(Encoding(m)) == Value(m, [])
  {
    PrintSpells(m, after);
    PrintSpells(m, []);
  }

  lemma PrintSpells(m: LinkMsg, after: Bytes)
    requires Writable(m)
    ensures Read(Print(m, after)) == if m.TestData? then Value(TestData(m.size + |after|), []) else Value(m, after)
  {
    hide ConnectBytes;
    match m
    case TestData(size) =>
      assert Spells([13] + (TestBytes(size) + after), TestData(size + |after|), []);
      SpelledIsRead(Print(m, after), TestData(size + |after|), []);
    case Connect(_, _, _, _, existing, _, _) =>
      assert (FlagCode(existing) != 0 <==> existing) && Print(m, after) == ConnectBytes(m, FlagCode(existing), after);
      SpelledIsRead(Print(m, after), m, after);
    case SetBlock(blocked) =>
      assert (FlagCode(blocked) != 0 <==> blocked) && Print(m, after) == [14] + ([FlagCode(blocked)] + after);
      SpelledIsRead(Print(m, after), m, after);
    case _ => SpelledIsRead(Print(m, after), m, after);
  }

  /** Different messages have different encodings. */
  lemma EncodingIsInjective(m: LinkMsg, n: LinkMsg)
    requires Writable(m) && Writable(n) && Encoding(m) == Encoding(n)
    ensures m == n
  {
    WrittenIsRead(m, []);
    WrittenIsRead(n, []);
  }

  // --------------------------------------------------------------------- the writer

  lemma Shift(w: Bytes, field: Bytes, remaining: Bytes)
    ensures (w + field) + remaining == w + (field + remaining)
  {
  }

  method WriteTestData(size: nat, w: Bytes) returns (w': Bytes)
    ensures w' == w + TestBytes(size)
  {
    w' := w;
    for n := 0 to size
      invariant w' == w + TestBytes(size)[..n]
    {
      w' := w' + [(n % 256) as Byte];
      assert TestBytes(size)[..n + 1] == TestBytes(size)[..n] + [(n % 256) as Byte];
    }
  }

  method WriteGreeting(extensions: U32, publicKey: PublicKey, w: Bytes, ghost after: Bytes) returns (w': Bytes)
    ensures w' + after == w + Greeting(extensions, publicKey, after)
  {
    hide ToBytes;
    ghost var r3 := publicKey + after;
    ghost var r2 := ToBytes(extensions, 4) + r3;
    ghost var r1 := [PROTOCOL_VERSION] + r2;
    Shift(w, MAGIC, r1);
    w' := w + MAGIC;
    Shift(w', [PROTOCOL_VERSION], r2);
    w' := w' + [PROTOCOL_VERSION];
    Shift(w', ToBytes(extensions, 4), r3);
    w' := w' + ToBytes(extensions, 4);
    Shift(w', publicKey, after);
    w' := w' + publicKey;
  }

  /** Fails, with part of the message written, when the user data is too long. */
  method WriteTail(userData: Bytes, recvBuffer: BufferSize, w: Bytes, ghost after: Bytes) returns (w': Bytes, ok: bool)
    ensures ok <==> |userData| < 0x1_0000
    ensures if ok then w' + after == w + Closing(userData, recvBuffer, after) else w' == w
  {
    hide ToBytes;
    if |userData| >= 0x1_0000 {
      return w, false;
    }
    ghost var r2 := ToBytes(recvBuffer, 4) + after;
    ghost var r1 := userData + r2;
    Shift(w, ToBytes(|userData|, 2), r1);
    w' := w + ToBytes(|userData|, 2);
    Shift(w', userData, r2);
    w' := w' + userData;
    Shift(w', ToBytes(recvBuffer, 4), after);
    w' := w' + ToBytes(recvBuffer, 4);
    ok := true;
  }

  method WriteWelcome(m: LinkMsg, w: Bytes) returns (w': Bytes, ok: bool)
    requires m.Welcome?
    ensures ok <==> Writable(m)
    ensures ok ==> w' == w + Encoding(m)
  {
    hide ToBytes, Greeting, Closing;
    ghost var tail := Closing(m.userData, m.recvBuffer, []);
    ghost var rest := ToBytes(m.serverId, 16) + tail;
    Shift(w, [1], Greeting(m.extensions, m.publicKey, rest));
    w' := WriteGreeting(m.extensions, m.publicKey, w + [1], rest);
    Shift(w', ToBytes(m.serverId, 16), tail);
    w', ok := WriteTail(m.userData, m.recvBuffer, w' + ToBytes(m.serverId, 16), []);
  }

  method WriteConnect(m: LinkMsg, w: Bytes) returns (w': Bytes, ok: bool)
    requires m.Connect?
    ensures ok <==> Writable(m)
    ensures ok ==> w' == w + Encoding(m)
  {
    hide ToBytes, Greeting, Closing;
    var code := if m.server.Some? then m.server.value else 0;
    ghost var tail := Closing(m.userData, m.recvBuffer, []);
    ghost var r3 := [FlagCode(m.existing)] + tail;
    ghost var r2 := ToBytes(m.connectionId, 16) + r3;
    ghost var r1 := ToBytes(code, 16) + r2;
    Shift(w, [2], Greeting(m.extensions, m.publicKey, r1));
    w' := WriteGreeting(m.extensions, m.publicKey, w + [2], r1);
    Shift(w', ToBytes(code, 16), r2);
    w' := w' + ToBytes(code, 16);
    Shift(w', ToBytes(m.connectionId, 16), r3);
    w' := w' + ToBytes(m.connectionId, 16);
    Shift(w', [FlagCode(m.existing)], tail);
    w', ok := WriteTail(m.userData, m.recvBuffer, w' + [FlagCode(m.existing)], []);
  }

  method WriteNumbered(id: Byte, num: U32, w: Bytes) returns (w': Bytes)
    ensures w' == w + ([id] + ToBytes(num, 4))
  {
    w' := w + [id];
    w' := w' + ToBytes(num, 4);
    assert w + [id] + ToBytes(num, 4) == w + ([id] + ToBytes(num, 4));
  }

  /** Appends a message to `w`, field by field. */
  method Write(m: LinkMsg, w: Bytes) returns (w': Bytes, ok: bool)
    ensures ok <==> Writable(m)
    ensures ok ==> w' == w + Encoding(m)
  {
    hide ToBytes, Greeting, Closing, TestBytes;
    ok := true;
    match m {
      case Welcome(_, _, _, _, _) => w', ok := WriteWelcome(m, w);
      case Connect(_, _, _, _, _, _, _) => w', ok := WriteConnect(m, w);
      case Accepted => w' := w + [3];
      case Refused(reason) => w' := w + [4] + [ReasonCode(reason)];
      case Ping => w' := w + [5];
      case Pong => w' := w + [6];
      case Data(num) => w' := WriteNumbered(7, num, w);
      case Ack(received) => w' := WriteNumbered(8, received, w);
      case Consumed(num, consumed) => w' := w + [9] + ToBytes(num, 4) + ToBytes(consumed, 4);
      case SendFinish(num) => w' := WriteNumbered(10, num, w);
      case ReceiveClose(num) => w' := WriteNumbered(11, num, w);
      case ReceiveFinish(num) => w' := WriteNumbered(12, num, w);
      case TestData(size) => w' := WriteTestData(size, w + [13]);
      case SetBlock(blocked) => w' := w + [14] + [FlagCode(blocked)];
      case Goodbye => w' := w + [15];
      case Terminate => w' := w + [16];
    }
  }

  // --------------------------------------------------------------- reliable messages

  /** A count of consumed bytes is a 32-bit number. */
  predicate CountFits(m: ReliableMsg) {
    m.Consumed? ==> m.count < 0x1_0000_0000
  }

  function ToLinkMsg(m: ReliableMsg, num: U32): (LinkMsg, Option<Bytes>)
    requires CountFits(m)
  {
    match m
    case Data(bytes) => (LinkMsg.Data(num), Some(bytes))
    case Consumed(count) => (LinkMsg.Consumed(num, count), None)
    case SendFinish => (LinkMsg.SendFinish(num), None)
    case ReceiveClose => (LinkMsg.ReceiveClose(num), None)
    case ReceiveFinish => (LinkMsg.ReceiveFinish(num), None)
  }

  predicate IsReliable(m: LinkMsg) {
    m.Data? || m.Consumed? || m.SendFinish? || m.ReceiveClose? || m.ReceiveFinish?
  }

  function FromLinkMsg(m: LinkMsg, data: Option<Bytes>): (ReliableMsg, U32)
    requires IsReliable(m) && (m.Data? ==> data.Some?)
  {
    match m
    case Data(num) => (ReliableMsg.Data(data.value), num)
    case Consumed(num, consumed) => (ReliableMsg.Consumed(consumed), num)
    case SendFinish(num) => (ReliableMsg.SendFinish, num)
    case ReceiveClose(num) => (ReliableMsg.ReceiveClose, num)
    case ReceiveFinish(num) => (ReliableMsg.ReceiveFinish, num)
  }
}
