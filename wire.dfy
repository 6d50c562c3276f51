/**
 * The text form of an outbound chat message: a header
 * `<code>!<TYPE>#<nick>:` followed by a payload whose layout depends on the
 * type, built from `(…)`, `[…]` and `{…}` fields and ending in free text.
 *
 * Encode builds that text. Decode is a reference reader written only to show
 * that the format loses nothing: DecodeEncode proves that every field of every
 * message can be read back from the text, provided the fields that are not
 * last do not contain their own closing delimiter.
 */
module Wire {
  import opened Wrappers
  import opened Text
  import T = MessageTypes

  /** The ranges of Java's `int` and `long`. */
  predicate IsInt32(n: int) {
    -0x8000_0000 <= n < 0x8000_0000
  }

  predicate IsInt64(n: int) {
    -0x8000_0000_0000_0000 <= n < 0x8000_0000_0000_0000
  }

  /** Java's `int` and `long`. */
  type Int32 = x: int | IsInt32(x)
  type Int64 = x: int | IsInt64(x)

  /** The content of one message, by type; the header's code and nick are not part of it. */
  datatype Message =
    | Away(awayMsg: string)
    | Back
    | Chat(color: Int32, text: string)
    | Client(client: string, uptime: Int64, operatingSystem: string, privateChatPort: Int32, tcpChatPort: Int32)
    | Expose
    | Exposing
    | SendFile(userCode: Int32, fileSize: Int64, fileHash: Int32, fileName: string)
    | SendFileAbort(userCode: Int32, fileHash: Int32, fileName: string)
    | SendFileAccept(userCode: Int32, port: Int32, fileHash: Int32, fileName: string)
    | GetTopic
    | Idle
    | Logoff
    | Logon
    | NickCrash(nick: string)
    | Nick(newNick: string)
    | PrivMsg(targetCode: Int32, color: Int32, text: string)
    | StoppedWriting
    | TopicMsg(nick: string, time: Int64, topic: string)
    | Writing

  function TypeOf(m: Message): T.MessageType {
    match m
    case Away(_) => T.Away
    case Back => T.Back
    case Chat(_, _) => T.Msg
    case Client(_, _, _, _, _) => T.Client
    case Expose => T.Expose
    case Exposing => T.Exposing
    case SendFile(_, _, _, _) => T.SendFile
    case SendFileAbort(_, _, _) => T.SendFileAbort
    case SendFileAccept(_, _, _, _) => T.SendFileAccept
    case GetTopic => T.GetTopic
    case Idle => T.Idle
    case Logoff => T.Logoff
    case Logon => T.Logon
    case NickCrash(_) => T.NickCrash
    case Nick(_) => T.Nick
    case PrivMsg(_, _, _) => T.PrivMsg
    case StoppedWriting => T.StoppedWriting
    case TopicMsg(_, _, _) => T.Topic
    case Writing => T.Writing
  }

  /** The types whose text is the header alone. */
  predicate IsBare(m: Message) {
    m.Back? || m.Expose? || m.Exposing? || m.GetTopic? || m.Idle? || m.Logoff? || m.Logon?
    || m.StoppedWriting? || m.Writing?
  }

  /** The common start of every message: `<code>!<TYPE>#<nick>:`. */
  function Header(code: int, token: string, nick: string): string {
    IntToString(code) + "!" + token + "#" + nick + ":"
  }

  /** A delimited field: the opening character, the field's text, the closing character. */
  function Field(open: char, content: string, close: char): string {
    [open] + content + [close]
  }

  /** The nick in the header: the sender's, except that NICK carries the new one. */
  function HeaderNick(nick: string, m: Message): string {
    if m.Nick? then m.newNick else nick
  }

  /** The part after the header's colon. */
  function Payload(m: Message): string {
    match m
    case Away(awayMsg) => awayMsg
    case Chat(color, text) => "[" + IntToString(color) + "]" + text
    case Client(client, uptime, os, privatePort, tcpPort) =>
      "(" + client + ")[" + IntToString(uptime) + "]{" + os + "}<" + IntToString(privatePort) + ">/"
      + IntToString(tcpPort) + "\\"
    case SendFile(userCode, fileSize, fileHash, fileName) =>
      "(" + IntToString(userCode) + ")" + "[" + IntToString(fileSize) + "]" + "{" + IntToString(fileHash) + "}" + fileName
    case SendFileAbort(userCode, fileHash, fileName) =>
      "(" + IntToString(userCode) + ")" + "{" + IntToString(fileHash) + "}" + fileName
    case SendFileAccept(userCode, port, fileHash, fileName) =>
      "(" + IntToString(userCode) + ")" + "[" + IntToString(port) + "]" + "{" + IntToString(fileHash) + "}" + fileName
    case NickCrash(nick) => nick
    case PrivMsg(targetCode, color, text) =>
      "(" + IntToString(targetCode) + ")" + "[" + IntToString(color) + "]" + text
    case TopicMsg(nick, time, topic) =>
      "(" + nick + ")" + "[" + IntToString(time) + "]" + topic
    case _ => ""
  }

  /** The wire text of `m` sent by the user with this code and nick. */
  function Encode(code: int, nick: string, m: Message): string {
    Header(code, T.Token(TypeOf(m)), HeaderNick(nick, m)) + Payload(m)
  }

  /** Every message text starts with the header built from its own type's token. */
  lemma EncodeStartsWithHeader(code: int, nick: string, m: Message)
    ensures var h := Header(code, T.Token(TypeOf(m)), HeaderNick(nick, m));
      |h| <= |Encode(code, nick, m)| && Encode(code, nick, m)[..|h|] == h
  {
  }

  /**
   * A payload is empty exactly for the nine header-only types, for NICK, and
   * for AWAY and NICKCRASH when their free text is empty.
   */
  lemma {:induction false} PayloadEmptyIff(m: Message)
    ensures Payload(m) == "" <==>
      IsBare(m) || m.Nick? || (m.Away? && m.awayMsg == "") || (m.NickCrash? && m.nick == "")
  {
    match m
    case Chat(c, t) => assert Payload(m)[0] == '[';
    case Client(_, _, _, _, _) => assert Payload(m)[0] == '(';
    case SendFile(_, _, _, _) => assert Payload(m)[0] == '(';
    case SendFileAbort(_, _, _) => assert Payload(m)[0] == '(';
    case SendFileAccept(_, _, _, _) => assert Payload(m)[0] == '(';
    case PrivMsg(_, _, _) => assert Payload(m)[0] == '(';
    case TopicMsg(_, _, _) => assert Payload(m)[0] == '(';
    case _ =>
  }

  // ---------------------------------------------------------------------------
  // The reference reader.

  datatype HeaderFields = HeaderFields(code: int, token: string, nick: string, payload: string)

  /** Who sent a decoded message, and what it says. */
  datatype Envelope = Envelope(senderCode: Int32, senderNick: string, message: Message)

  /** Splits a text at the first `!`, then `#`, then `:`. */
  function ReadHeader(s: string): Option<HeaderFields> {
    var p1 :- SplitAt(s, '!');
    var code :- ParseInt(p1.0);
    var p2 :- SplitAt(p1.1, '#');
    var p3 :- SplitAt(p2.1, ':');
    Some(HeaderFields(code, p2.0, p3.0, p3.1))
  }

  /** Reads `open … close` from the front of `s`: the text between and what follows. */
  function ReadText(open: char, close: char, s: string): Option<(string, string)> {
    if |s| > 0 && s[0] == open then SplitAt(s[1..], close) else None
  }

  function ReadInt32(open: char, close: char, s: string): Option<(Int32, string)> {
    var f :- ReadText(open, close, s);
    var n :- ParseInt(f.0);
    if IsInt32(n) then Some((n, f.1)) else None
  }

  function ReadInt64(open: char, close: char, s: string): Option<(Int64, string)> {
    var f :- ReadText(open, close, s);
    var n :- ParseInt(f.0);
    if IsInt64(n) then Some((n, f.1)) else None
  }

  function Bare(p: string, m: Message): Option<Message> {
    if p == "" then Some(m) else None
  }

  function ReadChat(p: string): Option<Message> {
    var c :- ReadInt32('[', ']', p);
    Some(Chat(c.0, c.1))
  }

  function ReadClient(p: string): Option<Message> {
    var cl :- ReadText('(', ')', p);
    var up :- ReadInt64('[', ']', cl.1);
    var os :- ReadText('{', '}', up.1);
    var pp :- ReadInt32('<', '>', os.1);
    var tp :- ReadInt32('/', '\\', pp.1);
    if tp.1 == "" then Some(Client(cl.0, up.0, os.0, pp.0, tp.0)) else None
  }

  function ReadSendFile(p: string): Option<Message> {
    var u :- ReadInt32('(', ')', p);
    var sz :- ReadInt64('[', ']', u.1);
    var h :- ReadInt32('{', '}', sz.1);
    Some(SendFile(u.0, sz.0, h.0, h.1))
  }

  function ReadSendFileAbort(p: string): Option<Message> {
    var u :- ReadInt32('(', ')', p);
    var h :- ReadInt32('{', '}', u.1);
    Some(SendFileAbort(u.0, h.0, h.1))
  }

  function ReadSendFileAccept(p: string): Option<Message> {
    var u :- ReadInt32('(', ')', p);
    var port :- ReadInt32('[', ']', u.1);
    var h :- ReadInt32('{', '}', port.1);
    Some(SendFileAccept(u.0, port.0, h.0, h.1))
  }

  function ReadPrivMsg(p: string): Option<Message> {
    var target :- ReadInt32('(', ')', p);
    var c :- ReadInt32('[', ']', target.1);
    Some(PrivMsg(target.0, c.0, c.1))
  }

  function ReadTopic(p: string): Option<Message> {
    var n :- ReadText('(', ')', p);
    var time :- ReadInt64('[', ']', n.1);
    Some(TopicMsg(n.0, time.0, time.1))
  }

  /** Reads the payload `p` of a message of type `t` whose header nick is `nick`. */
  function DecodePayload(t: T.MessageType, nick: string, p: string): Option<Message> {
    match t
    case Away => Some(Away(p))
    case Back => Bare(p, Back)
    case Msg => ReadChat(p)
    case Client => ReadClient(p)
    case Expose => Bare(p, Expose)
    case Exposing => Bare(p, Exposing)
    case SendFile => ReadSendFile(p)
    case SendFileAbort => ReadSendFileAbort(p)
    case SendFileAccept => ReadSendFileAccept(p)
    case GetTopic => Bare(p, GetTopic)
    case Idle => Bare(p, Idle)
    case Logoff => Bare(p, Logoff)
    case Logon => Bare(p, Logon)
    case NickCrash => Some(NickCrash(p))
    case Nick => Bare(p, Nick(nick))
    case PrivMsg => ReadPrivMsg(p)
    case StoppedWriting => Bare(p, StoppedWriting)
    case Topic => ReadTopic(p)
    case Writing => Bare(p, Writing)
  }

  function Decode(s: string): Option<Envelope> {
    var h :- ReadHeader(s);
    var t :- T.FromToken(h.token);
    var m :- DecodePayload(t, h.nick, h.payload);
    if IsInt32(h.code) then Some(Envelope(h.code, h.nick, m)) else None
  }

  /**
   * What the reader needs: the header nick has no colon, and a text field that
   * is followed by another field does not contain its own closing delimiter.
   */
  predicate Readable(nick: string, m: Message) {
    ':' !in HeaderNick(nick, m)
    && (m.Client? ==> ')' !in m.client && '}' !in m.operatingSystem)
    && (m.TopicMsg? ==> ')' !in m.nick)
  }

  // ---------------------------------------------------------------------------
  // Round trip.

  lemma ReadTextField(open: char, content: string, close: char, rest: string)
    requires close !in content
    ensures ReadText(open, close, Field(open, content, close) + rest) == Some((content, rest))
  {
    var s := Field(open, content, close) + rest;
    assert s[1..] == content + [close] + rest;
    SplitAtFirst(content, close, rest);
  }

  /** A number field reads back as the number, whatever follows it. */
  lemma ReadIntField(open: char, n: int, close: char, rest: string)
    requires !IsDigit(close) && close != '-'
    ensures ReadText(open, close, Field(open, IntToString(n), close) + rest) == Some((IntToString(n), rest))
    ensures ParseInt(IntToString(n)) == Some(n)
  {
    IntToStringAvoids(n, close);
    ParseIntOfIntToString(n);
    ReadTextField(open, IntToString(n), close, rest);
  }

  lemma ReadInt32Field(open: char, n: Int32, close: char, rest: string)
    requires !IsDigit(close) && close != '-'
    ensures ReadInt32(open, close, Field(open, IntToString(n), close) + rest) == Some((n, rest))
  {
    ReadIntField(open, n, close, rest);
  }

  lemma ReadInt64Field(open: char, n: Int64, close: char, rest: string)
    requires !IsDigit(close) && close != '-'
    ensures ReadInt64(open, close, Field(open, IntToString(n), close) + rest) == Some((n, rest))
  {
    ReadIntField(open, n, close, rest);
  }

  lemma ReadHeaderOfHeader(code: int, token: string, nick: string, payload: string)
    requires '!' !in token && '#' !in token && ':' !in nick
    ensures ReadHeader(Header(code, token, nick) + payload) == Some(HeaderFields(code, token, nick, payload))
  {
    var digits := IntToString(code);
    var s := Header(code, token, nick) + payload;
    var r1 := token + "#" + nick + ":" + payload;
    var r2 := nick + ":" + payload;
    assert s == digits + ['!'] + r1;
    assert r1 == token + ['#'] + r2;
    assert r2 == nick + [':'] + payload;
    IntToStringAvoids(code, '!');
    ParseIntOfIntToString(code);
    SplitAtFirst(digits, '!', r1);
    SplitAtFirst(token, '#', r2);
    SplitAtFirst(nick, ':', payload);
  }

  // Regrouping a payload into its delimited fields, for arbitrary field texts.

  lemma TwoFields(o1: char, a: string, c1: char, o2: char, b: string, c2: char, rest: string)
    ensures [o1] + a + [c1] + [o2] + b + [c2] + rest == Field(o1, a, c1) + (Field(o2, b, c2) + rest)
  {
  }

  lemma ThreeFields(o1: char, a: string, c1: char, o2: char, b: string, c2: char, o3: char, c: string, c3: char,
                    rest: string)
    ensures [o1] + a + [c1] + [o2] + b + [c2] + [o3] + c + [c3] + rest
      == Field(o1, a, c1) + (Field(o2, b, c2) + (Field(o3, c, c3) + rest))
  {
  }

  lemma ClientFields(client: string, uptime: string, os: string, privatePort: string, tcpPort: string)
    ensures "(" + client + ")[" + uptime + "]{" + os + "}<" + privatePort + ">/" + tcpPort + "\\"
      == Field('(', client, ')') + (Field('[', uptime, ']') + (Field('{', os, '}')
         + (Field('<', privatePort, '>') + (Field('/', tcpPort, '\\') + ""))))
  {
  }

  lemma DecodeClient(m: Message)
    requires m.Client? && ')' !in m.client && '}' !in m.operatingSystem
    ensures ReadClient(Payload(m)) == Some(m)
  {
    var tail4 := Field('/', IntToString(m.tcpChatPort), '\\') + "";
    var tail3 := Field('<', IntToString(m.privateChatPort), '>') + tail4;
    var tail2 := Field('{', m.operatingSystem, '}') + tail3;
    var tail1 := Field('[', IntToString(m.uptime), ']') + tail2;
    ReadTextField('(', m.client, ')', tail1);
    ReadInt64Field('[', m.uptime, ']', tail2);
    ReadTextField('{', m.operatingSystem, '}', tail3);
    ReadInt32Field('<', m.privateChatPort, '>', tail4);
    ReadInt32Field('/', m.tcpChatPort, '\\', "");
    ClientFields(m.client, IntToString(m.uptime), m.operatingSystem, IntToString(m.privateChatPort),
      IntToString(m.tcpChatPort));
  }

  lemma DecodeSendFile(m: Message)
    requires m.SendFile?
    ensures ReadSendFile(Payload(m)) == Some(m)
  {
    var tail2 := Field('{', IntToString(m.fileHash), '}') + m.fileName;
    var tail1 := Field('[', IntToString(m.fileSize), ']') + tail2;
    ReadInt32Field('(', m.userCode, ')', tail1);
    ReadInt64Field('[', m.fileSize, ']', tail2);
    ReadInt32Field('{', m.fileHash, '}', m.fileName);
    ThreeFields('(', IntToString(m.userCode), ')', '[', IntToString(m.fileSize), ']',
      '{', IntToString(m.fileHash), '}', m.fileName);
  }

  lemma DecodeSendFileAbort(m: Message)
    requires m.SendFileAbort?
    ensures ReadSendFileAbort(Payload(m)) == Some(m)
  {
    var tail1 := Field('{', IntToString(m.fileHash), '}') + m.fileName;
    ReadInt32Field('(', m.userCode, ')', tail1);
    ReadInt32Field('{', m.fileHash, '}', m.fileName);
    TwoFields('(', IntToString(m.userCode), ')', '{', IntToString(m.fileHash), '}', m.fileName);
  }

  lemma DecodeSendFileAccept(m: Message)
    requires m.SendFileAccept?
    ensures ReadSendFileAccept(Payload(m)) == Some(m)
  {
    var tail2 := Field('{', IntToString(m.fileHash), '}') + m.fileName;
    var tail1 := Field('[', IntToString(m.port), ']') + tail2;
    ReadInt32Field('(', m.userCode, ')', tail1);
    ReadInt32Field('[', m.port, ']', tail2);
    ReadInt32Field('{', m.fileHash, '}', m.fileName);
    ThreeFields('(', IntToString(m.userCode), ')', '[', IntToString(m.port), ']',
      '{', IntToString(m.fileHash), '}', m.fileName);
  }

  lemma DecodePrivMsg(m: Message)
    requires m.PrivMsg?
    ensures ReadPrivMsg(Payload(m)) == Some(m)
  {
    var tail1 := Field('[', IntToString(m.color), ']') + m.text;
    ReadInt32Field('(', m.targetCode, ')', tail1);
    ReadInt32Field('[', m.color, ']', m.text);
    TwoFields('(', IntToString(m.targetCode), ')', '[', IntToString(m.color), ']', m.text);
  }

  lemma DecodeTopic(m: Message)
    requires m.TopicMsg? && ')' !in m.nick
    ensures ReadTopic(Payload(m)) == Some(m)
  {
    var tail1 := Field('[', IntToString(m.time), ']') + m.topic;
    ReadTextField('(', m.nick, ')', tail1);
    ReadInt64Field('[', m.time, ']', m.topic);
    TwoFields('(', m.nick, ')', '[', IntToString(m.time), ']', m.topic);
    assert Payload(m) == Field('(', m.nick, ')') + tail1;
  }

  lemma DecodeChat(m: Message)
    requires m.Chat?
    ensures ReadChat(Payload(m)) == Some(m)
  {
    ReadInt32Field('[', m.color, ']', m.text);
    assert Payload(m) == Field('[', IntToString(m.color), ']') + m.text;
  }

  lemma DecodeUnstructured(nick: string, m: Message)
    requires !(m.Chat? || m.Client? || m.SendFile? || m.SendFileAbort? || m.SendFileAccept? || m.PrivMsg? || m.TopicMsg?)
    ensures DecodePayload(TypeOf(m), HeaderNick(nick, m), Payload(m)) == Some(m)
  {
  }

  /** How DecodePayload dispatches, stated for an arbitrary payload. */
  lemma DecodePayloadBy(t: T.MessageType, nick: string, p: string, m: Message)
    requires t == T.Msg ==> ReadChat(p) == Some(m)
    requires t == T.Client ==> ReadClient(p) == Some(m)
    requires t == T.SendFile ==> ReadSendFile(p) == Some(m)
    requires t == T.SendFileAbort ==> ReadSendFileAbort(p) == Some(m)
    requires t == T.SendFileAccept ==> ReadSendFileAccept(p) == Some(m)
    requires t == T.PrivMsg ==> ReadPrivMsg(p) == Some(m)
    requires t == T.Topic ==> ReadTopic(p) == Some(m)
    requires t in {T.Msg, T.Client, T.SendFile, T.SendFileAbort, T.SendFileAccept, T.PrivMsg, T.Topic}
    ensures DecodePayload(t, nick, p) == Some(m)
  {
  }

  /** Each type's payload reads back as the message it was built from. */
  lemma {:induction false} DecodePayloadOfPayload(nick: string, m: Message)
    requires Readable(nick, m)
    ensures DecodePayload(TypeOf(m), HeaderNick(nick, m), Payload(m)) == Some(m)
  {
    var t, n, p := TypeOf(m), HeaderNick(nick, m), Payload(m);
    if m.Chat? {
      DecodeChat(m);
      DecodePayloadBy(t, n, p, m);
    } else if m.Client? {
      DecodeClient(m);
      DecodePayloadBy(t, n, p, m);
    } else if m.SendFile? {
      DecodeSendFile(m);
      DecodePayloadBy(t, n, p, m);
    } else if m.SendFileAbort? {
      DecodeSendFileAbort(m);
      DecodePayloadBy(t, n, p, m);
    } else if m.SendFileAccept? {
      DecodeSendFileAccept(m);
      DecodePayloadBy(t, n, p, m);
    } else if m.PrivMsg? {
      DecodePrivMsg(m);
      DecodePayloadBy(t, n, p, m);
    } else if m.TopicMsg? {
      DecodeTopic(m);
      DecodePayloadBy(t, n, p, m);
    } else {
      DecodeUnstructured(nick, m);
    }
  }

  /**
   * The format is unambiguous: the code, the header nick and every field of
   * the message are recovered from the text.
   */
  lemma DecodeEncode(code: Int32, nick: string, m: Message)
    requires Readable(nick, m)
    ensures Decode(Encode(code, nick, m)) == Some(Envelope(code, HeaderNick(nick, m), m))
  {
    T.FromTokenOfToken(TypeOf(m));
    ReadHeaderOfHeader(code, T.Token(TypeOf(m)), HeaderNick(nick, m), Payload(m));
    DecodePayloadOfPayload(nick, m);
  }

  /** Hence two readable messages with the same text are the same message from the same sender. */
  lemma EncodeInjective(code1: Int32, nick1: string, m1: Message, code2: Int32, nick2: string, m2: Message)
    requires Readable(nick1, m1) && Readable(nick2, m2)
    requires Encode(code1, nick1, m1) == Encode(code2, nick2, m2)
    ensures code1 == code2 && m1 == m2 && HeaderNick(nick1, m1) == HeaderNick(nick2, m2)
  {
    DecodeEncode(code1, nick1, m1);
    DecodeEncode(code2, nick2, m2);
  }
}
