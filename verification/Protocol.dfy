/** The message structure and its wire format (common/src/protocol.c, common/include/protocol.h). */
module Protocol {
  import opened Text
  import opened Hashing

  const BUFFER_SIZE: nat := 4096
  const HASH_HEX_OUTPUT_LENGTH: nat := 129
  const MAX_PAYLOAD_SIZE: nat := 2048
  const MAX_USERNAME_LENGTH: nat := 16
  const MAX_PASSWORD_LENGTH: nat := 16

  const SERVER: string := "server"
  const CLIENT_DEFAULT_NAME: string := "client"
  const SIGNAL_QUIT: string := "QUIT"
  const SIGNAL_EXIT: string := "EXIT"

  // Result codes of create_message.
  const CREATION_SUCCESS: int := 2100
  const CREATION_FAILURE: int := 2101
  const CREATION_PAYLOAD_SIZE_EXCEEDED: int := 2109
  const CREATION_USERNAME_SIZE_EXCEEDED: int := 2110
  const CREATION_PAYLOAD_EMPTY: int := 2111
  const CREATION_HASH_FAILURE: int := 2112

  // Message types.
  const TEXT: Int32 := 1234
  const TOAST: Int32 := 1235
  const CHOICE: Int32 := 1236
  const PING: Int32 := 1241
  const ACK: Int32 := 1242
  const SIGNAL: Int32 := 1243
  const AUTH: Int32 := 1244
  const AUTH_ATTEMPTS: Int32 := 1245
  const UID: Int32 := 1246
  const ERROR: Int32 := 1247
  const USER_JOIN: Int32 := 1248

  // Message codes.
  const WELCOME: int := 2345
  const ENTER_USERNAME: int := 2346
  const ENTER_PASSWORD: int := 2347
  const ENTER_PASSWORD_CONFIRMATION: int := 2348
  const INVALID_PASSWORD: int := 2350
  const PASSWORDS_DO_NOT_MATCH: int := 2351
  const TRY_AGAIN: int := 2352
  const USER_DOES_NOT_EXIST: int := 2356
  const USER_ALREADY_ONLINE: int := 2357
  const USER_REGISTER_INFO: int := 2358
  const USER_REGISTER_CHOICE: int := 2359
  const USER_CREATED: int := 2360
  const USER_AUTHENTICATED: int := 2361
  const ATTEMPTS_EXCEEDED: int := 2366

  type Int32 = i: int | -0x8000_0000 <= i < 0x8000_0000
  type Uint32 = i: int | 0 <= i < 0x1_0000_0000

  predicate FitsField(s: string, n: nat) {
    |s| <= n && NUL !in s
  }

  predicate Delimitable(id: string) {
    id != "" && BAR !in id
  }

  datatype Message = Message(messageUid: string, kind: Int32, sender: string, recipient: string,
                             payloadLength: Uint32, payload: string)
  {
    /** What the character arrays of the structure can hold. */
    predicate Fits() {
      && FitsField(messageUid, HASH_HEX_OUTPUT_LENGTH - 1)
      && FitsField(sender, HASH_HEX_OUTPUT_LENGTH - 1)
      && FitsField(recipient, HASH_HEX_OUTPUT_LENGTH - 1)
      && FitsField(payload, MAX_PAYLOAD_SIZE - 1)
    }

    /** What makes the printed form unambiguous. */
    predicate WellFormed() {
      && Delimitable(messageUid) && Delimitable(sender) && Delimitable(recipient)
      && NEWLINE !in payload
      && payloadLength == |payload|
    }
  }

  datatype Creation = Created(message: Message) | Rejected(code: int)

  /** What create_message hashes for the message uid. */
  function HashedText(stamp: string, payload: string): string {
    Take(stamp + payload, HASH_HEX_OUTPUT_LENGTH + MAX_PAYLOAD_SIZE - 1)
  }

  /** create_message: `stamp` is the clock's text, `hash` what get_hash prints. */
  function CreateMessage(hash: string -> string, stamp: string, kind: Int32, sender: string, recipient: string,
                         payload: string): Creation
  {
    if |payload| > MAX_PAYLOAD_SIZE then Rejected(CREATION_PAYLOAD_SIZE_EXCEEDED)
    else if |sender| > HASH_HEX_OUTPUT_LENGTH || |recipient| > HASH_HEX_OUTPUT_LENGTH then
      Rejected(CREATION_USERNAME_SIZE_EXCEEDED)
    else if payload == "" then Rejected(CREATION_PAYLOAD_EMPTY)
    else
      Created(Message(
        hash(HashedText(stamp, payload)),
        kind,
        Take(sender, HASH_HEX_OUTPUT_LENGTH - 1),
        Take(recipient, HASH_HEX_OUTPUT_LENGTH - 1),
        |payload|,
        Take(payload, MAX_PAYLOAD_SIZE - 1)))
  }

  /** What create_message takes and what it makes of it: texts of 1 to 2048 characters and ids of at most 129, cut to
      2047 and 128. */
  lemma CreatedByLength(hash: string -> string, stamp: string, kind: Int32, sender: string, recipient: string,
                        payload: string)
    ensures var c := CreateMessage(hash, stamp, kind, sender, recipient, payload);
            && (c == Rejected(2109) <==> |payload| > 2048)
            && (c == Rejected(2110) <==> |payload| <= 2048 && (|sender| > 129 || |recipient| > 129))
            && (c == Rejected(2111) <==> payload == "" && |sender| <= 129 && |recipient| <= 129)
            && (c.Created? <==> 1 <= |payload| <= 2048 && |sender| <= 129 && |recipient| <= 129)
            && (c.Created? ==>
                  && c.message.kind == kind && c.message.payloadLength == |payload|
                  && c.message.sender == (if |sender| <= 128 then sender else sender[..128])
                  && c.message.recipient == (if |recipient| <= 128 then recipient else recipient[..128])
                  && c.message.payload == if |payload| <= 2047 then payload else payload[..2047])
  {
  }

  /** A message uid is the hash of the clock's text and the payload, both whole. Where the hash tells the texts
      apart, two messages have one uid exactly if they were created at one time with one payload: neither their
      types nor their senders and recipients matter. */
  lemma UidOfTimeAndPayload(hash: string -> string, stamp: string, kind: Int32, sender: string, recipient: string,
                            payload: string, stamp': string, kind': Int32, sender': string, recipient': string,
                            payload': string)
    requires |stamp| == |stamp'| <= 19
    requires CreateMessage(hash, stamp, kind, sender, recipient, payload).Created?
    requires CreateMessage(hash, stamp', kind', sender', recipient', payload').Created?
    ensures var a := CreateMessage(hash, stamp, kind, sender, recipient, payload).message.messageUid;
            var b := CreateMessage(hash, stamp', kind', sender', recipient', payload').message.messageUid;
            && a == hash(stamp + payload) && b == hash(stamp' + payload')
            && ((hash(stamp + payload) == hash(stamp' + payload') ==> stamp + payload == stamp' + payload') ==>
                  (a == b <==> stamp == stamp' && payload == payload'))
  {
    var s, s' := stamp + payload, stamp' + payload';
    assert s[..|stamp|] == stamp && s[|stamp|..] == payload;
    assert s'[..|stamp'|] == stamp' && s'[|stamp'|..] == payload';
  }

  /** The storage `create_message` was given, afterwards: untouched when it refuses. */
  function Filled(prior: Message, c: Creation): Message {
    match c
    case Created(m) => m
    case Rejected(_) => prior
  }

  function Field(a: string, rest: string): string {
    a + ([BAR] + rest)
  }

  function LengthText(m: Message): string { Field(PrintInt(m.payloadLength), m.payload) }
  function RecipientText(m: Message): string { Field(m.recipient, LengthText(m)) }
  function SenderText(m: Message): string { Field(m.sender, RecipientText(m)) }
  function KindText(m: Message): string { Field(PrintInt(m.kind), SenderText(m)) }
  function FullText(m: Message): string { Field(m.messageUid, KindText(m)) }

  /** The frame that send_message writes. */
  function Encode(m: Message): string {
    Take(FullText(m), BUFFER_SIZE - 1)
  }

  /** A structure with all ids at full width still leaves 1638 bytes of the buffer free, and the
      frame holds no NUL, so `strlen(buffer)` is all of it. */
  lemma EncodeIsWhole(m: Message)
    requires m.Fits()
    ensures Encode(m) == FullText(m)
    ensures |Encode(m)| <= 3 * (HASH_HEX_OUTPUT_LENGTH - 1) + 11 + 10 + 5 + MAX_PAYLOAD_SIZE - 1
    ensures NUL !in Encode(m)
  {
    PrintWidths(m.kind);
    PrintWidths(m.payloadLength);
    assert NUL !in PrintInt(m.kind) && NUL !in PrintInt(m.payloadLength);
    assert NUL !in LengthText(m);
    assert NUL !in SenderText(m);
  }

  lemma FieldBehind(front: string, a: string, rest: string)
    ensures front + Field(a, rest) == front + a + "|" + rest
  {
  }

  /** The frame, field by field. */
  lemma FrameText(m: Message)
    requires m.Fits()
    ensures Encode(m) == m.messageUid + "|" + PrintInt(m.kind) + "|" + m.sender + "|" + m.recipient + "|"
                         + PrintInt(m.payloadLength) + "|" + m.payload
  {
    EncodeIsWhole(m);
    var front := m.messageUid + "|" + PrintInt(m.kind) + "|";
    FieldBehind("", m.messageUid, KindText(m));
    FieldBehind(m.messageUid + "|", PrintInt(m.kind), SenderText(m));
    FieldBehind(front, m.sender, RecipientText(m));
    FieldBehind(front + m.sender + "|", m.recipient, LengthText(m));
    FieldBehind(front + m.sender + "|" + m.recipient + "|", PrintInt(m.payloadLength), m.payload);
  }

  function AfterBar(s: string): Option<string> {
    if s != "" && s[0] == BAR then Some(s[1..]) else None
  }

  function ToInt32(v: int): (i: Int32)
    ensures -0x8000_0000 <= v < 0x8000_0000 ==> i == v
  {
    if -0x8000_0000 <= v < 0x8000_0000 then v else (v + 0x8000_0000) % 0x1_0000_0000 - 0x8000_0000
  }

  // The sscanf of parse_message, one conversion after another; a conversion or a literal that does
  // not match ends the scan and leaves the remaining fields as they were.

  function ScanPayload(m: Message, s: string): (r: Message)
    ensures r == m.(payload := r.payload)
  {
    var n := ScanSet(s, NEWLINE, MAX_PAYLOAD_SIZE - 1);
    if n == 0 then m else m.(payload := s[..n])
  }

  function ScanLength(m: Message, s: string): (r: Message)
    ensures r == m.(payloadLength := r.payloadLength, payload := r.payload)
  {
    match ScanDecimal(s)
    case NoMatch => m
    case Matched(v, rest) =>
      var filled := m.(payloadLength := v % 0x1_0000_0000);
      match AfterBar(rest)
      case None => filled
      case Some(r) => ScanPayload(filled, r)
  }

  function ScanRecipient(m: Message, s: string): (r: Message)
    ensures r == m.(recipient := r.recipient, payloadLength := r.payloadLength, payload := r.payload)
  {
    var n := ScanSet(s, BAR, HASH_HEX_OUTPUT_LENGTH - 1);
    if n == 0 then m else
    var filled := m.(recipient := s[..n]);
    match AfterBar(s[n..])
    case None => filled
    case Some(r) => ScanLength(filled, r)
  }

  function ScanSender(m: Message, s: string): (r: Message)
    ensures r.messageUid == m.messageUid && r.kind == m.kind
  {
    var n := ScanSet(s, BAR, HASH_HEX_OUTPUT_LENGTH - 1);
    if n == 0 then m else
    var filled := m.(sender := s[..n]);
    match AfterBar(s[n..])
    case None => filled
    case Some(r) => ScanRecipient(filled, r)
  }

  function ScanKind(m: Message, s: string): (r: Message)
    ensures r.messageUid == m.messageUid
  {
    match ScanDecimal(s)
    case NoMatch => m
    case Matched(v, rest) =>
      var filled := m.(kind := ToInt32(v));
      match AfterBar(rest)
      case None => filled
      case Some(r) => ScanSender(filled, r)
  }

  function ScanMessage(m: Message, s: string): Message {
    var n := ScanSet(s, BAR, HASH_HEX_OUTPUT_LENGTH - 1);
    if n == 0 then m else
    var filled := m.(messageUid := s[..n]);
    match AfterBar(s[n..])
    case None => filled
    case Some(r) => ScanKind(filled, r)
  }

  /** The store `msg->payload[msg->payload_length] = '\0'`. */
  function Terminated(m: Message): Message {
    m.(payload := Take(m.payload, m.payloadLength))
  }

  /** parse_message: `prior` is what the structure held before, which stays where the scan stops early. */
  function ParseMessage(prior: Message, buffer: string): Message {
    Terminated(ScanMessage(prior, buffer))
  }

  lemma ScanDelimited(a: string, rest: string)
    requires FitsField(a, HASH_HEX_OUTPUT_LENGTH - 1) && Delimitable(a)
    ensures ScanSet(Field(a, rest), BAR, HASH_HEX_OUTPUT_LENGTH - 1) == |a| > 0
    ensures Field(a, rest)[..|a|] == a && AfterBar(Field(a, rest)[|a|..]) == Some(rest)
  {
    ScanSetOfField(a, [BAR] + rest, BAR, HASH_HEX_OUTPUT_LENGTH - 1);
    assert Field(a, rest)[|a|..] == [BAR] + rest;
  }

  /** An id that is empty or holds the delimiter is never read back whole. */
  lemma ScanUndelimitable(a: string, rest: string)
    requires !Delimitable(a)
    ensures ScanSet(Field(a, rest), BAR, HASH_HEX_OUTPUT_LENGTH - 1) < |a| || a == ""
    ensures a == "" ==> ScanSet(Field(a, rest), BAR, HASH_HEX_OUTPUT_LENGTH - 1) == 0
  {
    var s := Field(a, rest);
    if a == "" {
      assert s[0] == BAR;
    } else {
      var p :| 0 <= p < |a| && a[p] == BAR;
      assert s[p] == BAR;
    }
  }

  lemma ScanNumber(i: int, rest: string)
    ensures ScanDecimal(Field(PrintInt(i), rest)) == Matched(i, [BAR] + rest)
    ensures AfterBar([BAR] + rest) == Some(rest)
  {
    PrintIntScans(i, [BAR] + rest);
    assert ([BAR] + rest)[1..] == rest;
  }

  lemma {:induction false} ScanSetAtLeast(a: string, rest: string, stop: char, width: nat)
    requires |a| <= width && stop !in a && NUL !in a
    ensures |a| <= ScanSet(a + rest, stop, width)
    ensures rest == "x" && stop != 'x' && |a| < width ==> ScanSet(a + rest, stop, width) == |a| + 1
  {
    if a == "" {
      assert a + rest == rest;
    } else {
      assert (a + rest)[1..] == a[1..] + rest;
      ScanSetAtLeast(a[1..], rest, stop, width - 1);
    }
  }

  /** The frame with trailing bytes, regrouped field by field. */
  lemma Regroup(m: Message, junk: string)
    requires m.Fits()
    ensures Encode(m) + junk ==
            Field(m.messageUid, Field(PrintInt(m.kind), Field(m.sender, Field(m.recipient,
              Field(PrintInt(m.payloadLength), m.payload + junk)))))
  {
    EncodeIsWhole(m);
    assert LengthText(m) + junk == Field(PrintInt(m.payloadLength), m.payload + junk);
    assert RecipientText(m) + junk == Field(m.recipient, LengthText(m) + junk);
    assert SenderText(m) + junk == Field(m.sender, RecipientText(m) + junk);
    assert KindText(m) + junk == Field(PrintInt(m.kind), SenderText(m) + junk);
    assert FullText(m) + junk == Field(m.messageUid, KindText(m) + junk);
  }

  lemma ScanOneLength(p: Message, length: Uint32, rest: string)
    ensures ScanLength(p, Field(PrintInt(length), rest)) == ScanPayload(p.(payloadLength := length), rest)
  {
    ScanNumber(length, rest);
  }

  lemma ScanOneRecipient(p: Message, recipient: string, rest: string)
    requires FitsField(recipient, HASH_HEX_OUTPUT_LENGTH - 1) && Delimitable(recipient)
    ensures ScanRecipient(p, Field(recipient, rest)) == ScanLength(p.(recipient := recipient), rest)
  {
    ScanDelimited(recipient, rest);
  }

  lemma ScanTail(p: Message, recipient: string, length: Uint32, rest: string)
    requires FitsField(recipient, HASH_HEX_OUTPUT_LENGTH - 1) && Delimitable(recipient)
    ensures ScanRecipient(p, Field(recipient, Field(PrintInt(length), rest)))
            == ScanPayload(p.(recipient := recipient, payloadLength := length), rest)
  {
    ScanOneRecipient(p, recipient, Field(PrintInt(length), rest));
    ScanOneLength(p.(recipient := recipient), length, rest);
  }

  lemma ScanOneKind(p: Message, kind: Int32, rest: string)
    ensures ScanKind(p, Field(PrintInt(kind), rest)) == ScanSender(p.(kind := kind), rest)
  {
    var s := Field(PrintInt(kind), rest);
    assert ScanDecimal(s) == Matched(kind, [BAR] + rest) && AfterBar([BAR] + rest) == Some(rest) by {
      ScanNumber(kind, rest);
    }
    assert ToInt32(kind) == kind;
  }

  lemma ScanOneSender(p: Message, sender: string, rest: string)
    requires FitsField(sender, HASH_HEX_OUTPUT_LENGTH - 1) && Delimitable(sender)
    ensures ScanSender(p, Field(sender, rest)) == ScanRecipient(p.(sender := sender), rest)
  {
    ScanDelimited(sender, rest);
  }

  /** Reads back everything up to the payload; then only the payload scan is left. */
  lemma ScanHeader(m: Message, prior: Message, junk: string)
    requires m.Fits() && Delimitable(m.messageUid) && Delimitable(m.sender) && Delimitable(m.recipient)
    ensures ScanMessage(prior, Encode(m) + junk) == ScanPayload(m.(payload := prior.payload), m.payload + junk)
  {
    Regroup(m, junk);
    var f4 := Field(m.recipient, Field(PrintInt(m.payloadLength), m.payload + junk));
    var p1 := prior.(messageUid := m.messageUid);
    var p3 := p1.(kind := m.kind, sender := m.sender);
    assert ScanMessage(prior, Encode(m) + junk) == ScanKind(p1, Field(PrintInt(m.kind), Field(m.sender, f4))) by {
      ScanDelimited(m.messageUid, Field(PrintInt(m.kind), Field(m.sender, f4)));
    }
    ScanOneKind(p1, m.kind, Field(m.sender, f4));
    ScanOneSender(p1.(kind := m.kind), m.sender, f4);
    ScanTail(p3, m.recipient, m.payloadLength, m.payload + junk);
  }

  /** parse_message undoes send_message, whatever the structure and the rest of the buffer held. */
  lemma RoundTrip(m: Message, prior: Message, junk: string)
    requires m.Fits() && m.WellFormed()
    ensures ParseMessage(prior, Encode(m) + junk) == m
  {
    ScanHeader(m, prior, junk);
    ScanSetAtLeast(m.payload, junk, NEWLINE, MAX_PAYLOAD_SIZE - 1);
    var s := m.payload + junk;
    var n := ScanSet(s, NEWLINE, MAX_PAYLOAD_SIZE - 1);
    assert s[..n][..|m.payload|] == m.payload;
  }

  function OtherText(s: string): string {
    if s == "" then "x" else ""
  }

  /** A structure unlike `m` in every field that a scan could leave alone. */
  function Unlike(m: Message): Message {
    Message(OtherText(m.messageUid), if m.kind == 0 then 1 else 0, OtherText(m.sender), OtherText(m.recipient), 0,
            OtherText(m.payload))
  }

  lemma BadUidBreaks(m: Message, junk: string)
    requires m.Fits() && !Delimitable(m.messageUid)
    ensures ParseMessage(Unlike(m), Encode(m) + junk) != m
  {
    Regroup(m, junk);
    var f := Field(PrintInt(m.kind),
        Field(m.sender, Field(m.recipient, Field(PrintInt(m.payloadLength), m.payload + junk))));
    ScanUndelimitable(m.messageUid, f);
  }

  lemma BadSenderBreaks(m: Message, junk: string)
    requires m.Fits() && Delimitable(m.messageUid) && !Delimitable(m.sender)
    ensures ParseMessage(Unlike(m), Encode(m) + junk) != m
  {
    Regroup(m, junk);
    var f4 := Field(m.recipient, Field(PrintInt(m.payloadLength), m.payload + junk));
    ScanDelimited(m.messageUid, Field(PrintInt(m.kind), Field(m.sender, f4)));
    ScanNumber(m.kind, Field(m.sender, f4));
    ScanUndelimitable(m.sender, f4);
  }

  lemma BadRecipientBreaks(m: Message, junk: string)
    requires m.Fits() && Delimitable(m.messageUid) && Delimitable(m.sender) && !Delimitable(m.recipient)
    ensures ParseMessage(Unlike(m), Encode(m) + junk) != m
  {
    Regroup(m, junk);
    var f5 := Field(PrintInt(m.payloadLength), m.payload + junk);
    ScanDelimited(m.messageUid, Field(PrintInt(m.kind), Field(m.sender, Field(m.recipient, f5))));
    ScanNumber(m.kind, Field(m.sender, Field(m.recipient, f5)));
    ScanDelimited(m.sender, Field(m.recipient, f5));
    ScanUndelimitable(m.recipient, f5);
  }

  lemma BadPayloadBreaks(m: Message)
    requires m.Fits() && Delimitable(m.messageUid) && Delimitable(m.sender) && Delimitable(m.recipient)
    requires m.payloadLength < MAX_PAYLOAD_SIZE
    requires NEWLINE in m.payload || m.payloadLength != |m.payload|
    ensures exists junk :: ParseMessage(Unlike(m), Encode(m) + junk) != m
  {
    var junk := "x";
    ScanHeader(m, Unlike(m), junk);
    var s := m.payload + junk;
    var n := ScanSet(s, NEWLINE, MAX_PAYLOAD_SIZE - 1);
    if NEWLINE in m.payload {
      var p :| 0 <= p < |m.payload| && m.payload[p] == NEWLINE;
      assert s[p] == NEWLINE;
    } else if m.payloadLength > |m.payload| {
      ScanSetAtLeast(m.payload, junk, NEWLINE, MAX_PAYLOAD_SIZE - 1);
    }
    assert ParseMessage(Unlike(m), Encode(m) + junk) != m;
  }

  /** Exactly the well-formed structures survive the wire for every earlier content of the receiving
      structure and every leftover in the receiving buffer. (A length field of 2048 or more would put
      the terminator outside the payload array.) */
  lemma RoundTripIff(m: Message)
    requires m.Fits() && m.payloadLength < MAX_PAYLOAD_SIZE
    ensures m.WellFormed() <==> forall prior, junk :: ParseMessage(prior, Encode(m) + junk) == m
  {
    if m.WellFormed() {
      forall prior, junk ensures ParseMessage(prior, Encode(m) + junk) == m {
        RoundTrip(m, prior, junk);
      }
    } else if !Delimitable(m.messageUid) {
      BadUidBreaks(m, "");
    } else if !Delimitable(m.sender) {
      BadSenderBreaks(m, "");
    } else if !Delimitable(m.recipient) {
      BadRecipientBreaks(m, "");
    } else {
      BadPayloadBreaks(m);
    }
  }

  /** A payload given to create_message arrives unchanged exactly when it is at most 2047 characters
      long and free of newlines; the 2048th character that create_message still accepts is lost. */
  lemma CreatedPayloadArrives(hash: string -> string, stamp: string, kind: Int32, sender: string, recipient: string,
                              payload: string)
    requires FitsField(sender, HASH_HEX_OUTPUT_LENGTH - 1) && Delimitable(sender)
    requires FitsField(recipient, HASH_HEX_OUTPUT_LENGTH - 1) && Delimitable(recipient)
    requires NUL !in payload && IsGetHash(hash)
    requires CreateMessage(hash, stamp, kind, sender, recipient, payload).Created?
    ensures var m := CreateMessage(hash, stamp, kind, sender, recipient, payload).message;
            m.Fits() &&
            ((forall prior, junk :: ParseMessage(prior, Encode(m) + junk).payload == payload)
             <==> |payload| < MAX_PAYLOAD_SIZE && NEWLINE !in payload)
  {
    var m := CreateMessage(hash, stamp, kind, sender, recipient, payload).message;
    assert IsHexText(m.messageUid);
    assert Delimitable(m.messageUid);
    if |payload| == MAX_PAYLOAD_SIZE || NEWLINE in payload {
      var prior := Unlike(m);
      ScanHeader(m, prior, "");
      var s := m.payload + "";
      var n := ScanSet(s, NEWLINE, MAX_PAYLOAD_SIZE - 1);
      if |payload| < MAX_PAYLOAD_SIZE {
        var p :| 0 <= p < |payload| && payload[p] == NEWLINE;
        assert s[p] == NEWLINE;
      }
      assert |ParseMessage(prior, Encode(m) + "").payload| < |payload|;
    } else {
      forall prior, junk ensures ParseMessage(prior, Encode(m) + junk).payload == payload {
        RoundTrip(m, prior, junk);
      }
    }
  }

  /** One side of a connection: the structure it fills and the receive buffer it never clears. */
  class Endpoint {
    var msg: Message
    const buffer: array<char>

    constructor (msg: Message)
      ensures this.msg == msg && fresh(buffer) && buffer.Length == 4096
    {
      this.msg := msg;
      buffer := new char[BUFFER_SIZE];
    }

    /** create_message, where None is a NULL argument and `digest` is None when get_hash fails. A refusal leaves
        the structure alone, but a failed hash leaves its texts cleared. */
    method Create(digest: string -> Option<string>, stamp: string, kind: Int32, sender: Option<string>,
                  recipient: Option<string>, payload: Option<string>)
      returns (code: int)
      modifies this
      ensures var hash := s => if digest(s).Some? then digest(s).value else "";
              var text := if payload.Some? then payload.value else "";
              if sender == None || recipient == None then code == 2101 && msg == old(msg)
              else
                match CreateMessage(hash, stamp, kind, sender.value, recipient.value, text)
                case Rejected(c) => code == c && msg == old(msg)
                case Created(m) =>
                  if digest(HashedText(stamp, text)).Some? then code == 2100 && msg == m
                  else code == 2112
                       && msg == old(msg).(messageUid := "", sender := "", recipient := "", payload := "")
    {
      var text := if payload.Some? then payload.value else "";
      if sender == None || recipient == None {
        return CREATION_FAILURE;
      } else if |text| > MAX_PAYLOAD_SIZE {
        return CREATION_PAYLOAD_SIZE_EXCEEDED;
      } else if |sender.value| > HASH_HEX_OUTPUT_LENGTH || |recipient.value| > HASH_HEX_OUTPUT_LENGTH {
        return CREATION_USERNAME_SIZE_EXCEEDED;
      } else if text == "" {
        return CREATION_PAYLOAD_EMPTY;
      }
      msg := msg.(messageUid := "", sender := "", recipient := "", payload := "");
      var uid := digest(HashedText(stamp, text));
      if uid == None {
        return CREATION_HASH_FAILURE;
      }
      msg := msg.(messageUid := uid.value);
      msg := msg.(kind := kind);
      msg := msg.(sender := Take(sender.value, HASH_HEX_OUTPUT_LENGTH - 1));
      msg := msg.(recipient := Take(recipient.value, HASH_HEX_OUTPUT_LENGTH - 1));
      msg := msg.(payloadLength := |text|);
      msg := msg.(payload := Take(text, MAX_PAYLOAD_SIZE - 1));
      return CREATION_SUCCESS;
    }

    /** send_message, up to the frame handed to SSL_write. What it promises is about the receiver: the frame is
        whole, fits the buffer, and is the structure again for everybody who parses it. The structure itself
        is left with nothing to send. */
    method Send() returns (frame: string)
      modifies this
      ensures frame == Encode(old(msg)) && msg == old(msg).(payload := "", payloadLength := 0)
      ensures old(msg).Fits() ==> |frame| < BUFFER_SIZE && NUL !in frame
      ensures old(msg).Fits() && old(msg).WellFormed() ==>
                forall prior, junk :: ParseMessage(prior, frame + junk) == old(msg)
      ensures old(msg).Fits() && old(msg).payloadLength < MAX_PAYLOAD_SIZE && !old(msg).WellFormed() ==>
                exists prior, junk :: ParseMessage(prior, frame + junk) != old(msg)
    {
      if msg.Fits() {
        EncodeIsWhole(msg);
        if msg.payloadLength < MAX_PAYLOAD_SIZE {
          RoundTripIff(msg);
        }
      }
      frame := Encode(msg);
      msg := msg.(payload := "", payloadLength := 0);
    }

    /** SSL_read into the uncleared buffer, then parse_message. */
    method Receive(frame: string)
      requires |frame| <= buffer.Length
      modifies this, buffer
      ensures buffer[..] == frame + old(buffer[|frame|..])
      ensures msg == ParseMessage(old(msg), buffer[..])
      ensures forall m: Message :: m.Fits() && m.WellFormed() && frame == Encode(m) ==> msg == m
    {
      forall i | 0 <= i < |frame| {
        buffer[i] := frame[i];
      }
      assert buffer[..] == frame + old(buffer[|frame|..]);
      msg := ParseMessage(msg, buffer[..]);
      forall m: Message | m.Fits() && m.WellFormed() && frame == Encode(m) ensures msg == m {
        RoundTrip(m, old(msg), old(buffer[|frame|..]));
      }
    }
  }
}
