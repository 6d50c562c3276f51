/**
 * The outbound messages of the chat protocol, one function per send
 * operation, each giving the exact text and where it goes (the whole group,
 * or one user). The contract of each function is the expectation
 * NetworkMessagesTest states for it: the header built by the test's helper
 * followed by that type's payload.
 *
 * The user's own colour, a file's hash, the client string, the operating
 * system name and the uptime figure come from elsewhere in the program and
 * are parameters here.
 */
module NetworkMessages {
  import opened Wrappers
  import opened Text
  import opened Wire

  /** The application user, or the user a message is about. */
  datatype User = User(
    nick: string,
    code: Int32,
    client: string,
    operatingSystem: string,
    privateChatPort: Int32,
    tcpChatPort: Int32)

  datatype Topic = Topic(topic: string, nick: string, time: Int64)

  /** The facts about a file that go into a SENDFILE offer. */
  datatype FileToSend = FileToSend(name: string, length: Int64, hash: Int32)

  datatype Destination = AllUsers | OneUser(user: User)

  /** One call into the network service: the text, and whom it is sent to. */
  datatype Outbound = Outbound(text: string, destination: Destination)

  /** The test's createMessage(type): the header with the user's own nick. */
  function CreateMessage(me: User, messageType: string): string {
    Header(me.code, messageType, me.nick)
  }

  /** The test's createMessage(type, nick): the header with another nick in the nick slot. */
  function CreateMessageWithNick(me: User, messageType: string, nick: string): string {
    Header(me.code, messageType, nick)
  }

  function ToAll(me: User, m: Message): Outbound {
    Outbound(Encode(me.code, me.nick, m), AllUsers)
  }

  function SendAwayMessage(me: User, awayMsg: string): (r: Outbound)
    ensures r == Outbound(CreateMessage(me, "AWAY") + awayMsg, AllUsers)
  {
    ToAll(me, Away(awayMsg))
  }

  function SendBackMessage(me: User): (r: Outbound)
    ensures r == Outbound(CreateMessage(me, "BACK"), AllUsers)
  {
    ToAll(me, Back)
  }

  function SendChatMessage(me: User, ownColor: Int32, msg: string): (r: Outbound)
    ensures r == Outbound(CreateMessage(me, "MSG") + ("[" + IntToString(ownColor) + "]" + msg), AllUsers)
  {
    ToAll(me, Chat(ownColor, msg))
  }

  function SendClient(me: User, uptime: Int64): (r: Outbound)
    ensures r == Outbound(CreateMessage(me, "CLIENT") + ("(" + me.client + ")[" + IntToString(uptime) + "]{"
      + me.operatingSystem + "}<" + IntToString(me.privateChatPort) + ">/" + IntToString(me.tcpChatPort) + "\\"),
      AllUsers)
  {
    ToAll(me, Client(me.client, uptime, me.operatingSystem, me.privateChatPort, me.tcpChatPort))
  }

  function SendExposeMessage(me: User): (r: Outbound)
    ensures r == Outbound(CreateMessage(me, "EXPOSE"), AllUsers)
  {
    ToAll(me, Expose)
  }

  function SendExposingMessage(me: User): (r: Outbound)
    ensures r == Outbound(CreateMessage(me, "EXPOSING"), AllUsers)
  {
    ToAll(me, Exposing)
  }

  /** Offers `file` to `user`; the offer goes to the whole group and names the receiver by code. */
  function SendFile(me: User, user: User, file: FileToSend): (r: Outbound)
    ensures r == Outbound(CreateMessage(me, "SENDFILE") + ("(" + IntToString(user.code) + ")"
      + "[" + IntToString(file.length) + "]" + "{" + IntToString(file.hash) + "}" + file.name), AllUsers)
  {
    ToAll(me, Wire.SendFile(user.code, file.length, file.hash, file.name))
  }

  function SendFileAbort(me: User, user: User, fileHash: Int32, fileName: string): (r: Outbound)
    ensures r == Outbound(CreateMessage(me, "SENDFILEABORT") + ("(" + IntToString(user.code) + ")"
      + "{" + IntToString(fileHash) + "}" + fileName), AllUsers)
  {
    var m := Wire.SendFileAbort(user.code, fileHash, fileName);
    assert Payload(m) == "(" + IntToString(user.code) + ")" + "{" + IntToString(fileHash) + "}" + fileName;
    ToAll(me, m)
  }

  function SendFileAccept(me: User, user: User, port: Int32, fileHash: Int32, fileName: string): (r: Outbound)
    ensures r == Outbound(CreateMessage(me, "SENDFILEACCEPT") + ("(" + IntToString(user.code) + ")"
      + "[" + IntToString(port) + "]" + "{" + IntToString(fileHash) + "}" + fileName), AllUsers)
  {
    ToAll(me, Wire.SendFileAccept(user.code, port, fileHash, fileName))
  }

  function SendGetTopicMessage(me: User): (r: Outbound)
    ensures r == Outbound(CreateMessage(me, "GETTOPIC"), AllUsers)
  {
    ToAll(me, GetTopic)
  }

  function SendIdleMessage(me: User): (r: Outbound)
    ensures r == Outbound(CreateMessage(me, "IDLE"), AllUsers)
  {
    ToAll(me, Idle)
  }

  function SendLogoffMessage(me: User): (r: Outbound)
    ensures r == Outbound(CreateMessage(me, "LOGOFF"), AllUsers)
  {
    ToAll(me, Logoff)
  }

  function SendLogonMessage(me: User): (r: Outbound)
    ensures r == Outbound(CreateMessage(me, "LOGON"), AllUsers)
  {
    ToAll(me, Logon)
  }

  function SendNickCrashMessage(me: User, nick: string): (r: Outbound)
    ensures r == Outbound(CreateMessage(me, "NICKCRASH") + nick, AllUsers)
  {
    ToAll(me, NickCrash(nick))
  }

  /** Announces a nick change: the new nick takes the nick slot and the payload stays empty. */
  function SendNickMessage(me: User, newNick: string): (r: Outbound)
    ensures r == Outbound(CreateMessageWithNick(me, "NICK", newNick), AllUsers)
  {
    ToAll(me, Nick(newNick))
  }

  /** The one message that goes to a single user rather than to the group. */
  function SendPrivateMessage(me: User, ownColor: Int32, privmsg: string, user: User): (r: Outbound)
    ensures r == Outbound(CreateMessage(me, "PRIVMSG") + ("(" + IntToString(user.code) + ")"
      + "[" + IntToString(ownColor) + "]" + privmsg), OneUser(user))
  {
    var m := PrivMsg(user.code, ownColor, privmsg);
    assert Payload(m) == "(" + IntToString(user.code) + ")" + "[" + IntToString(ownColor) + "]" + privmsg;
    Outbound(Encode(me.code, me.nick, m), OneUser(user))
  }

  function SendStoppedWritingMessage(me: User): (r: Outbound)
    ensures r == Outbound(CreateMessage(me, "STOPPEDWRITING"), AllUsers)
  {
    ToAll(me, StoppedWriting)
  }

  function TopicMessage(topic: Topic): Message {
    TopicMsg(topic.nick, topic.time, topic.topic)
  }

  /** Sent when the user changes the topic. */
  function SendTopicChangeMessage(me: User, topic: Topic): (r: Outbound)
    ensures r == Outbound(CreateMessage(me, "TOPIC") + ("(" + topic.nick + ")" + "[" + IntToString(topic.time) + "]"
      + topic.topic), AllUsers)
  {
    ToAll(me, TopicMessage(topic))
  }

  /** Sent in answer to a GETTOPIC. */
  function SendTopicRequestedMessage(me: User, topic: Topic): (r: Outbound)
    ensures r == Outbound(CreateMessage(me, "TOPIC") + ("(" + topic.nick + ")" + "[" + IntToString(topic.time) + "]"
      + topic.topic), AllUsers)
  {
    ToAll(me, TopicMessage(topic))
  }

  function SendWritingMessage(me: User): (r: Outbound)
    ensures r == Outbound(CreateMessage(me, "WRITING"), AllUsers)
  {
    ToAll(me, Writing)
  }

  // ---------------------------------------------------------------------------
  // Properties across message types.

  /** Both ways of sending a topic produce the same text for the same topic. */
  lemma TopicChangeIsTopicRequested(me: User, topic: Topic)
    ensures SendTopicChangeMessage(me, topic) == SendTopicRequestedMessage(me, topic)
  {
  }

  /**
   * The messages that carry nothing after the header: BACK, EXPOSE, EXPOSING,
   * GETTOPIC, IDLE, LOGOFF, LOGON, STOPPEDWRITING and WRITING, and NICK
   * (whose header carries the new nick).
   */
  lemma HeaderOnlyMessages(me: User, newNick: string)
    ensures SendBackMessage(me).text == CreateMessage(me, "BACK")
    ensures SendExposeMessage(me).text == CreateMessage(me, "EXPOSE")
    ensures SendExposingMessage(me).text == CreateMessage(me, "EXPOSING")
    ensures SendGetTopicMessage(me).text == CreateMessage(me, "GETTOPIC")
    ensures SendIdleMessage(me).text == CreateMessage(me, "IDLE")
    ensures SendLogoffMessage(me).text == CreateMessage(me, "LOGOFF")
    ensures SendLogonMessage(me).text == CreateMessage(me, "LOGON")
    ensures SendStoppedWritingMessage(me).text == CreateMessage(me, "STOPPEDWRITING")
    ensures SendWritingMessage(me).text == CreateMessage(me, "WRITING")
    ensures SendNickMessage(me, newNick).text == CreateMessageWithNick(me, "NICK", newNick)
  {
  }

  // ---------------------------------------------------------------------------
  // The test's fixture and the example texts in its comments.

  /** The test's application user: nick TestUser, code 123, chat ports 2222 and 4444. */
  function TestMe(client: string, operatingSystem: string): User {
    User("TestUser", 123, client, operatingSystem, 2222, 4444)
  }

  lemma PrefixAndSuffix(a: string, b: string, c: string)
    ensures |a| <= |a + b + c| && (a + b + c)[..|a|] == a
    ensures |c| <= |a + b + c| && (a + b + c)[|a + b + c| - |c|..] == c
  {
    assert (a + b + c)[..|a|] == a;
    assert (a + b + c)[|a + b + c| - |c|..] == c;
  }

  lemma ClientRegroup(header: string, client: string, uptime: string, os: string, privatePort: string,
                      tcpPort: string)
    ensures header + ("(" + client + ")[" + uptime + "]{" + os + "}<" + privatePort + ">/" + tcpPort + "\\")
      == (header + "(" + client + ")[") + uptime + ("]{" + os + "}<" + privatePort + ">/" + tcpPort + "\\")
  {
  }

  lemma ClientSuffix(os: string, privatePort: string, tcpPort: string)
    requires privatePort == "2222" && tcpPort == "4444"
    ensures "]{" + os + "}<" + privatePort + ">/" + tcpPort + "\\" == "]{" + os + "}<2222>/4444\\"
  {
  }

  /**
   * testSendClientMessage: the text starts with the client field, ends with
   * the fixed suffix, and between them holds just the uptime, which is a run
   * of digits whenever the uptime is not negative.
   */
  lemma TestSendClientMessage(client: string, operatingSystem: string, uptime: Int64)
    ensures var text := SendClient(TestMe(client, operatingSystem), uptime).text;
      var startsWith := CreateMessage(TestMe(client, operatingSystem), "CLIENT") + "(" + client + ")[";
      var endsWith := "]{" + operatingSystem + "}<2222>/4444\\";
      |startsWith| <= |text| && text[..|startsWith|] == startsWith
      && |endsWith| <= |text| && text[|text| - |endsWith|..] == endsWith
      && text == startsWith + IntToString(uptime) + endsWith
    ensures uptime >= 0 ==> AllDigits(IntToString(uptime))
  {
    var me := TestMe(client, operatingSystem);
    var header := CreateMessage(me, "CLIENT");
    var startsWith := header + "(" + client + ")[";
    var endsWith := "]{" + operatingSystem + "}<2222>/4444\\";
    Numeral2222();
    Numeral4444();
    ClientRegroup(header, client, IntToString(uptime), operatingSystem, IntToString(2222), IntToString(4444));
    ClientSuffix(operatingSystem, IntToString(2222), IntToString(4444));
    PrefixAndSuffix(startsWith, IntToString(uptime), endsWith);
  }

  // Numerals from the test, each evaluated on its own.
  lemma Numeral11515687() ensures IntToString(11515687) == "11515687" {
    assert NatToString(11) == "11";
    assert NatToString(115) == "115";
    assert NatToString(1151) == "1151";
    assert NatToString(11515) == "11515";
    assert NatToString(115156) == "115156";
    assert NatToString(1151568) == "1151568";
    assert NatToString(11515687) == "11515687";
  }
  lemma Numeral2222() ensures IntToString(2222) == "2222" {
    assert NatToString(22) == "22";
    assert NatToString(222) == "222";
    assert NatToString(2222) == "2222";
  }
  lemma Numeral4444() ensures IntToString(4444) == "4444" {
    assert NatToString(44) == "44";
    assert NatToString(444) == "444";
    assert NatToString(4444) == "4444";
  }
  lemma Numeral4321() ensures IntToString(4321) == "4321" {
    assert NatToString(43) == "43";
    assert NatToString(432) == "432";
    assert NatToString(4321) == "4321";
  }
  lemma Numeral20103() ensures IntToString(20103) == "20103" {
    assert NatToString(20) == "20";
    assert NatToString(201) == "201";
    assert NatToString(2010) == "2010";
    assert NatToString(20103) == "20103";
  }
  lemma Numeral8578765() ensures IntToString(8578765) == "8578765" {
    assert NatToString(85) == "85";
    assert NatToString(857) == "857";
    assert NatToString(8578) == "8578";
    assert NatToString(85787) == "85787";
    assert NatToString(857876) == "857876";
    assert NatToString(8578765) == "8578765";
  }
  lemma NumeralOwnColor() ensures IntToString(-15987646) == "-15987646" {
    assert NatToString(15) == "15";
    assert NatToString(159) == "159";
    assert NatToString(1598) == "1598";
    assert NatToString(15987) == "15987";
    assert NatToString(159876) == "159876";
    assert NatToString(1598764) == "1598764";
    assert NatToString(15987646) == "15987646";
  }
  lemma Numeral16899115() ensures IntToString(16899115) == "16899115" {
    assert NatToString(16) == "16";
    assert NatToString(168) == "168";
    assert NatToString(1689) == "1689";
    assert NatToString(16899) == "16899";
    assert NatToString(168991) == "168991";
    assert NatToString(1689911) == "1689911";
    assert NatToString(16899115) == "16899115";
  }
  lemma Numeral17247198() ensures IntToString(17247198) == "17247198" {
    assert NatToString(17) == "17";
    assert NatToString(172) == "172";
    assert NatToString(1724) == "1724";
    assert NatToString(17247) == "17247";
    assert NatToString(172471) == "172471";
    assert NatToString(1724719) == "1724719";
    assert NatToString(17247198) == "17247198";
  }
  lemma Numeral10897608() ensures IntToString(10897608) == "10897608" {
    assert NatToString(10) == "10";
    assert NatToString(108) == "108";
    assert NatToString(1089) == "1089";
    assert NatToString(10897) == "10897";
    assert NatToString(108976) == "108976";
    assert NatToString(1089760) == "1089760";
    assert NatToString(10897608) == "10897608";
  }
  lemma Numeral435435() ensures IntToString(435435) == "435435" {
    assert NatToString(43) == "43";
    assert NatToString(435) == "435";
    assert NatToString(4354) == "4354";
    assert NatToString(43543) == "43543";
    assert NatToString(435435) == "435435";
  }
  lemma Numeral18102542() ensures IntToString(18102542) == "18102542" {
    assert NatToString(18) == "18";
    assert NatToString(181) == "181";
    assert NatToString(1810) == "1810";
    assert NatToString(18102) == "18102";
    assert NatToString(181025) == "181025";
    assert NatToString(1810254) == "1810254";
    assert NatToString(18102542) == "18102542";
  }
  lemma Numeral2132321323() ensures IntToString(2132321323) == "2132321323" {
    assert NatToString(21) == "21";
    assert NatToString(213) == "213";
    assert NatToString(2132) == "2132";
    assert NatToString(21323) == "21323";
    assert NatToString(213232) == "213232";
    assert NatToString(2132321) == "2132321";
    assert NatToString(21323213) == "21323213";
    assert NatToString(213232132) == "213232132";
    assert NatToString(2132321323) == "2132321323";
  }

  lemma ExampleAwayMessage()
    ensures SendAwayMessage(User("Christian", 11515687, "", "", 0, 0), "I am away").text
      == "11515687!AWAY#Christian:I am away"
  {
    Numeral11515687();
    AwayMessageText(11515687);
  }

  lemma AwayMessageText(code: Int32)
    requires IntToString(code) == "11515687"
    ensures SendAwayMessage(User("Christian", code, "", "", 0, 0), "I am away").text
      == "11515687!AWAY#Christian:I am away"
  {
    var header := CreateMessage(User("Christian", code, "", "", 0, 0), "AWAY");
    assert header == "11515687!AWAY#Christian:";
  }

  // Each expectation below is shown for number fields whose text is known,
  // then for the test's numbers; spelling the numbers out inside one proof
  // costs the solver far more than going through their text.

  lemma ExampleChatMessage()
    ensures SendChatMessage(User("Christian", 16899115, "", "", 0, 0), -15987646, "Some chat message").text
      == "16899115!MSG#Christian:[-15987646]Some chat message"
  {
    Numeral16899115();
    NumeralOwnColor();
    ChatMessageText(16899115, -15987646);
  }

  lemma ChatMessageText(code: Int32, ownColor: Int32)
    requires IntToString(code) == "16899115" && IntToString(ownColor) == "-15987646"
    ensures SendChatMessage(User("Christian", code, "", "", 0, 0), ownColor, "Some chat message").text
      == "16899115!MSG#Christian:[-15987646]Some chat message"
  {
    var header := CreateMessage(User("Christian", code, "", "", 0, 0), "MSG");
    assert header == "16899115!MSG#Christian:";
    ChatMessageLiteral(header, IntToString(ownColor));
  }

  lemma ChatMessageLiteral(header: string, color: string)
    requires header == "16899115!MSG#Christian:" && color == "-15987646"
    ensures header + ("[" + color + "]" + "Some chat message") == "16899115!MSG#Christian:[-15987646]Some chat message"
  {
  }

  lemma ExampleFileAcceptMessage()
    ensures SendFileAccept(User("Christian", 17247198, "", "", 0, 0), User("TestUser", 4321, "", "", 0, 0),
      20103, 8578765, "some_file.txt").text
      == "17247198!SENDFILEACCEPT#Christian:(4321)[20103]{8578765}some_file.txt"
  {
    Numeral17247198();
    Numeral4321();
    Numeral20103();
    Numeral8578765();
    FileAcceptMessageText(17247198, 4321, 20103, 8578765);
  }

  lemma FileAcceptMessageText(code: Int32, userCode: Int32, port: Int32, fileHash: Int32)
    requires IntToString(code) == "17247198" && IntToString(userCode) == "4321"
    requires IntToString(port) == "20103" && IntToString(fileHash) == "8578765"
    ensures SendFileAccept(User("Christian", code, "", "", 0, 0), User("TestUser", userCode, "", "", 0, 0),
      port, fileHash, "some_file.txt").text
      == "17247198!SENDFILEACCEPT#Christian:(4321)[20103]{8578765}some_file.txt"
  {
    var header := CreateMessage(User("Christian", code, "", "", 0, 0), "SENDFILEACCEPT");
    assert header == "17247198!SENDFILEACCEPT#Christian:";
    FileAcceptMessageLiteral(header, IntToString(userCode), IntToString(port), IntToString(fileHash));
  }

  lemma FileAcceptMessageLiteral(header: string, userCode: string, port: string, fileHash: string)
    requires header == "17247198!SENDFILEACCEPT#Christian:" && userCode == "4321"
    requires port == "20103" && fileHash == "8578765"
    ensures header + ("(" + userCode + ")" + "[" + port + "]" + "{" + fileHash + "}" + "some_file.txt")
      == "17247198!SENDFILEACCEPT#Christian:(4321)[20103]{8578765}some_file.txt"
  {
  }

  lemma ExamplePrivateMessage()
    ensures SendPrivateMessage(User("Christian", 10897608, "", "", 0, 0), -15987646, "this is a private message",
      User("TestUser", 435435, "", "", 12345, 0))
      == Outbound("10897608!PRIVMSG#Christian:(435435)[-15987646]this is a private message",
                  OneUser(User("TestUser", 435435, "", "", 12345, 0)))
  {
    Numeral10897608();
    Numeral435435();
    NumeralOwnColor();
    PrivateMessageText(10897608, -15987646, 435435);
  }

  lemma PrivateMessageText(code: Int32, ownColor: Int32, userCode: Int32)
    requires IntToString(code) == "10897608" && IntToString(ownColor) == "-15987646"
    requires IntToString(userCode) == "435435"
    ensures SendPrivateMessage(User("Christian", code, "", "", 0, 0), ownColor, "this is a private message",
      User("TestUser", userCode, "", "", 12345, 0))
      == Outbound("10897608!PRIVMSG#Christian:(435435)[-15987646]this is a private message",
                  OneUser(User("TestUser", userCode, "", "", 12345, 0)))
  {
    var header := CreateMessage(User("Christian", code, "", "", 0, 0), "PRIVMSG");
    assert header == "10897608!PRIVMSG#Christian:";
    PrivateMessageLiteral(header, IntToString(userCode), IntToString(ownColor));
  }

  lemma PrivateMessageLiteral(header: string, userCode: string, color: string)
    requires header == "10897608!PRIVMSG#Christian:" && userCode == "435435" && color == "-15987646"
    ensures header + ("(" + userCode + ")" + "[" + color + "]" + "this is a private message")
      == "10897608!PRIVMSG#Christian:(435435)[-15987646]this is a private message"
  {
    assert "(" + userCode + ")" + "[" + color + "]" == "(435435)[-15987646]";
    assert header + "(435435)[-15987646]" == "10897608!PRIVMSG#Christian:(435435)[-15987646]";
  }

  lemma ExampleTopicMessage()
    ensures SendTopicChangeMessage(User("Christian", 18102542, "", "", 0, 0),
      Topic("Interesting changed topic", "Snoopy", 2132321323)).text
      == "18102542!TOPIC#Christian:(Snoopy)[2132321323]Interesting changed topic"
  {
    Numeral18102542();
    Numeral2132321323();
    TopicMessageText(18102542, 2132321323);
  }

  lemma TopicMessageText(code: Int32, time: Int64)
    requires IntToString(code) == "18102542" && IntToString(time) == "2132321323"
    ensures SendTopicChangeMessage(User("Christian", code, "", "", 0, 0),
      Topic("Interesting changed topic", "Snoopy", time)).text
      == "18102542!TOPIC#Christian:(Snoopy)[2132321323]Interesting changed topic"
  {
    var header := CreateMessage(User("Christian", code, "", "", 0, 0), "TOPIC");
    assert header == "18102542!TOPIC#Christian:";
    TopicMessageLiteral(header, IntToString(time));
  }

  lemma TopicMessageLiteral(header: string, time: string)
    requires header == "18102542!TOPIC#Christian:" && time == "2132321323"
    ensures header + ("(" + "Snoopy" + ")" + "[" + time + "]" + "Interesting changed topic")
      == "18102542!TOPIC#Christian:(Snoopy)[2132321323]Interesting changed topic"
  {
    assert "(" + "Snoopy" + ")" + "[" + time + "]" == "(Snoopy)[2132321323]";
    assert header + "(Snoopy)[2132321323]" == "18102542!TOPIC#Christian:(Snoopy)[2132321323]";
  }
}
