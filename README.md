# KouChat: command history and wire messages

This project is a Dafny model of two small parts of the KouChat LAN chat client.
Each part comes with proofs about its behaviour.

**Command history** (`command_history.dfy`, module `Misc`). The input line keeps the last fifty commands the user typed.
- A cursor walks up to older commands and down to newer ones.
- A three-valued direction flag (Up, Middle, Down) behaves as follows:
  - After an add, the first step up returns the newest command without moving.
  - Walking down past the newest command returns to Middle.
- The Java class updates its fields in place, so the model is the class `Misc.CommandHistory`. It has the same three fields and methods `Add`, `GoUp` and `GoDown`.
- Each method is proved to take exactly one step of a pure state function: `AfterAdd`, `AfterUp` or `AfterDown`.
- The lemmas prove properties of those functions:
  - blank commands and consecutive repeats are dropped;
  - the oldest entry is evicted at fifty-one;
  - an add always resets the cursor;
  - each move behaves as specified at both ends of the list;
  - repeated moves up walk back one entry at a time and stop at the oldest;
  - down undoes up, and up undoes down;
  - any run of storable commands leaves the newest fifty of the old entries followed by the new commands, in order;
  - the invariant holds: at most fifty entries, and the cursor on an existing entry whenever the history is non-empty (on an empty history it is 0).
- As in the code, whenever the history is non-empty the cursor points at an existing entry. "Just added" and "walked off the newest end" are recorded only by direction Middle, not by a cursor past the end.

**Wire messages** (`network_messages.dfy`, module `NetworkMessages`, with `wire.dfy`, `message_types.dfy`, `text.dfy`). Every message a client sends to the group or to one user is a header `code!TYPE#nick:` followed by a payload.
- The payload is specific to the message type. It is built from `(…)`, `[…]` and `{…}` fields followed by free text.
- There is one function per send operation. Its contract is the expectation in NetworkMessagesTest: the test's `createMessage` header followed by the exact payload, and the destination (all users, or the one user of a private message).
- Lemmas restate the remaining expectations:
  - the header-only types;
  - the client message's prefix, suffix and middle;
  - the two topic senders are the same text;
  - five of the example texts in the test's comments: AWAY (line 76), MSG with the negative own colour `-15987646` (line 100), SENDFILEACCEPT (line 202), PRIVMSG (line 295) and the changed TOPIC (line 330).
- The decimal text of Java `int` and `long` values is modelled in `Text.IntToString`. Negatives get a leading minus sign, and no numeral has a leading zero.
- To show that the format loses nothing, `Wire.Decode` reads a text back into its sender code, header nick and message. `Wire.DecodeEncode` proves that every readable message reads back as itself. This reader exists only as a specification device; the program's own parser is not part of this model.

## Model

| member | source | states |
|---|---|---|
| Misc.CommandHistory.constructor | java/kouchat/src/net/usikkert/kouchat/misc/CommandHistory.java:49-53 | a new history is empty with direction Middle, cursor 0 (Java's default), and satisfies the invariant |
| Misc.Initial | java/kouchat/src/net/usikkert/kouchat/misc/CommandHistory.java:49-53 | the initial state is empty, has direction Middle and satisfies the invariant |
| Misc.CommandHistory.Add | java/kouchat/src/net/usikkert/kouchat/misc/CommandHistory.java:62-83 | the new fields are exactly AfterAdd of the old ones (trim-empty test included, via TrimEmptyIff); the invariant and well-formedness are kept |
| Misc.CommandHistory.GoUp | java/kouchat/src/net/usikkert/kouchat/misc/CommandHistory.java:91-105 | returns the entry and takes the state that AfterUp gives; invariant kept |
| Misc.CommandHistory.GoDown | java/kouchat/src/net/usikkert/kouchat/misc/CommandHistory.java:113-131 | returns the entry and takes the state that AfterDown gives; invariant kept |
| Misc.Trim | java/kouchat/src/net/usikkert/kouchat/misc/CommandHistory.java:66 | what String.trim keeps is no longer than the input, and a non-empty result starts and ends with a character above U+0020 |
| Misc.TrimIsSlice | java/kouchat/src/net/usikkert/kouchat/misc/CommandHistory.java:66 | the trimmed text is one contiguous slice of the command, and every character outside it is at most U+0020 |
| Misc.TrimEmptyIff | java/kouchat/src/net/usikkert/kouchat/misc/CommandHistory.java:66-67 | `command.trim().length() == 0` holds exactly when every character is at most U+0020 |
| Misc.AddKeepsInv | java/kouchat/src/net/usikkert/kouchat/misc/CommandHistory.java:71-82 | add keeps at most fifty entries and, whenever the history is non-empty, leaves the cursor on an existing entry (0 on an empty one) |
| Misc.UpKeepsInv | java/kouchat/src/net/usikkert/kouchat/misc/CommandHistory.java:91-105 | goUp never changes the entries and keeps the cursor in range |
| Misc.DownKeepsInv | java/kouchat/src/net/usikkert/kouchat/misc/CommandHistory.java:113-131 | goDown never changes the entries and keeps the cursor in range |
| Misc.AddIgnored | java/kouchat/src/net/usikkert/kouchat/misc/CommandHistory.java:64-69 | adding a blank command, or one equal to the newest entry, leaves the entries unchanged |
| Misc.AddStores | java/kouchat/src/net/usikkert/kouchat/misc/CommandHistory.java:71-77 | any other command is appended; with fifty already stored, the oldest is removed and the rest keep their order, leaving exactly fifty |
| Misc.AddChangesIff | java/kouchat/src/net/usikkert/kouchat/misc/CommandHistory.java:64-77 | the entries change if and only if the command is neither blank nor a repeat of the newest entry |
| Misc.AddResetsCursor | java/kouchat/src/net/usikkert/kouchat/misc/CommandHistory.java:79-82 | after any add, even an ignored one, direction is Middle and a non-empty history has its cursor on the newest entry |
| Misc.AddKeepsWellFormed | java/kouchat/src/net/usikkert/kouchat/misc/CommandHistory.java:55-77 | add never stores a blank entry or an entry equal to its predecessor, eviction included |
| Misc.AddedAllBounded | java/kouchat/src/net/usikkert/kouchat/misc/CommandHistory.java:36-39 | after any sequence of adds the history holds at most fifty entries |
| Misc.LastCommands | java/kouchat/src/net/usikkert/kouchat/misc/CommandHistory.java:71-77 | the newest fifty of a list of commands is a tail of it, at most fifty long, exactly fifty when the list has that many, and the whole list when it has fifty or fewer |
| Misc.LastCommandsOfLast | java/kouchat/src/net/usikkert/kouchat/misc/CommandHistory.java:71-77 | cutting to the newest fifty before appending more commands and cutting again gives the same as one cut of the whole list |
| Misc.AddedAllKeepsLast | java/kouchat/src/net/usikkert/kouchat/misc/CommandHistory.java:62-83 | when none of the added commands is blank or repeats its predecessor, the history afterwards is exactly the newest fifty of the old entries followed by the new commands, in order |
| Misc.FiftyOneCommandsKeepLastFifty | java/kouchat/src/net/usikkert/kouchat/misc/CommandHistory.java:71-77 | adding fifty-one storable commands to an empty history keeps the last fifty of them: the first is evicted |
| Misc.AddedAllWellFormed | java/kouchat/src/net/usikkert/kouchat/misc/CommandHistory.java:55-77 | after any sequence of adds no entry is blank and no two consecutive entries are equal |
| Misc.MovesOnEmpty | java/kouchat/src/net/usikkert/kouchat/misc/CommandHistory.java:93-130 | on an empty history goUp and goDown return "" and change nothing |
| Misc.UpMoves | java/kouchat/src/net/usikkert/kouchat/misc/CommandHistory.java:97-101 | goUp sets Up and returns the entry at the new cursor; the cursor stays after Middle, otherwise steps back and stops at 0 |
| Misc.DownMoves | java/kouchat/src/net/usikkert/kouchat/misc/CommandHistory.java:119-127 | below the newest entry goDown steps forward, sets Down and returns that entry; on the newest entry it returns "", sets Middle and keeps the cursor |
| Misc.UpAfterAddReturnsNewest | java/kouchat/src/net/usikkert/kouchat/misc/CommandHistory.java:79-101 | the first goUp after any add returns the newest entry |
| Misc.UpTimesAfterAdd | java/kouchat/src/net/usikkert/kouchat/misc/CommandHistory.java:91-105 | after an add, k goUps leave the cursor k - 1 entries back from the newest, stopping at the oldest |
| Misc.UpTimesFromUp | java/kouchat/src/net/usikkert/kouchat/misc/CommandHistory.java:97-101 | once moving up, k more goUps move the cursor back k entries, stopping at 0 |
| Misc.DownUndoesUp | java/kouchat/src/net/usikkert/kouchat/misc/CommandHistory.java:91-131 | a goDown right after a goUp that moved returns the entry the cursor started on |
| Misc.UpUndoesDown | java/kouchat/src/net/usikkert/kouchat/misc/CommandHistory.java:91-131 | a goUp right after a goDown that moved returns the entry the cursor started on |
| NetworkMessages.CreateMessage | src/test/java/net/usikkert/kouchat/net/NetworkMessagesTest.java:373-375 | the header `code!type#nick:` with the user's own code and nick; no contract of its own: the Send functions' ensures are stated in terms of it, and Wire.EncodeStartsWithHeader, Wire.DecodeEncode and Wire.EncodeInjective state what the header is and that it reads back |
| NetworkMessages.CreateMessageWithNick | src/test/java/net/usikkert/kouchat/net/NetworkMessagesTest.java:384-386 | the same header with another nick in the nick slot; no contract of its own: SendNickMessage's ensures and HeaderOnlyMessages are stated in terms of it |
| Wire.Encode | src/test/java/net/usikkert/kouchat/net/NetworkMessagesTest.java:373-386 | the text of a message: its header followed by its type's payload; no contract of its own: every Send function is defined through it, Wire.EncodeStartsWithHeader states that the text starts with the header, Wire.DecodeEncode that the text reads back to the code, header nick and message, and Wire.EncodeInjective that distinct readable messages have distinct texts |
| NetworkMessages.SendAwayMessage | src/test/java/net/usikkert/kouchat/net/NetworkMessagesTest.java:75-80 | the AWAY header followed by the away text verbatim, to all users |
| NetworkMessages.SendBackMessage | src/test/java/net/usikkert/kouchat/net/NetworkMessagesTest.java:87-91 | the BACK header alone, to all users |
| NetworkMessages.SendChatMessage | src/test/java/net/usikkert/kouchat/net/NetworkMessagesTest.java:99-104 | the MSG header, `[ownColor]`, then the text, to all users |
| NetworkMessages.SendClient | src/test/java/net/usikkert/kouchat/net/NetworkMessagesTest.java:111-122 | the CLIENT header, then `(client)[uptime]{os}<privatePort>/tcpPort\`, to all users |
| NetworkMessages.SendExposeMessage | src/test/java/net/usikkert/kouchat/net/NetworkMessagesTest.java:129-133 | the EXPOSE header alone, to all users |
| NetworkMessages.SendExposingMessage | src/test/java/net/usikkert/kouchat/net/NetworkMessagesTest.java:140-144 | the EXPOSING header alone, to all users |
| NetworkMessages.SendFile | src/test/java/net/usikkert/kouchat/net/NetworkMessagesTest.java:152-172 | the SENDFILE header, then `(userCode)[fileLength]{fileHash}fileName`, to all users |
| NetworkMessages.SendFileAbort | src/test/java/net/usikkert/kouchat/net/NetworkMessagesTest.java:179-193 | the SENDFILEABORT header, then `(userCode){fileHash}fileName`, to all users |
| NetworkMessages.SendFileAccept | src/test/java/net/usikkert/kouchat/net/NetworkMessagesTest.java:201-217 | the SENDFILEACCEPT header, then `(userCode)[port]{fileHash}fileName`, to all users |
| NetworkMessages.SendGetTopicMessage | src/test/java/net/usikkert/kouchat/net/NetworkMessagesTest.java:224-228 | the GETTOPIC header alone, to all users |
| NetworkMessages.SendIdleMessage | src/test/java/net/usikkert/kouchat/net/NetworkMessagesTest.java:235-239 | the IDLE header alone, to all users |
| NetworkMessages.SendLogoffMessage | src/test/java/net/usikkert/kouchat/net/NetworkMessagesTest.java:246-250 | the LOGOFF header alone, to all users |
| NetworkMessages.SendLogonMessage | src/test/java/net/usikkert/kouchat/net/NetworkMessagesTest.java:257-261 | the LOGON header alone, to all users |
| NetworkMessages.SendNickCrashMessage | src/test/java/net/usikkert/kouchat/net/NetworkMessagesTest.java:268-273 | the NICKCRASH header followed by the colliding nick verbatim, to all users |
| NetworkMessages.SendNickMessage | src/test/java/net/usikkert/kouchat/net/NetworkMessagesTest.java:280-285 | the NICK header with the new nick in the nick slot and nothing after it, to all users |
| NetworkMessages.SendPrivateMessage | src/test/java/net/usikkert/kouchat/net/NetworkMessagesTest.java:294-311 | the PRIVMSG header, then `(targetCode)[ownColor]text`, to the target user only |
| NetworkMessages.SendStoppedWritingMessage | src/test/java/net/usikkert/kouchat/net/NetworkMessagesTest.java:318-322 | the STOPPEDWRITING header alone, to all users |
| NetworkMessages.SendTopicChangeMessage | src/test/java/net/usikkert/kouchat/net/NetworkMessagesTest.java:329-338 | the TOPIC header, then `(nick)[time]topic`, to all users |
| NetworkMessages.SendTopicRequestedMessage | src/test/java/net/usikkert/kouchat/net/NetworkMessagesTest.java:345-354 | the TOPIC header, then `(nick)[time]topic`, to all users |
| NetworkMessages.SendWritingMessage | src/test/java/net/usikkert/kouchat/net/NetworkMessagesTest.java:361-365 | the WRITING header alone, to all users |
| NetworkMessages.TopicChangeIsTopicRequested | src/test/java/net/usikkert/kouchat/net/NetworkMessagesTest.java:329-354 | both topic senders produce the same message for the same topic |
| NetworkMessages.HeaderOnlyMessages | src/test/java/net/usikkert/kouchat/net/NetworkMessagesTest.java:86-144 | BACK, EXPOSE, EXPOSING, GETTOPIC, IDLE, LOGOFF, LOGON, STOPPEDWRITING and WRITING are exactly their header; NICK is its header with the new nick |
| NetworkMessages.TestSendClientMessage | src/test/java/net/usikkert/kouchat/net/NetworkMessagesTest.java:111-122 | for the test's user, the CLIENT text starts with header + `(client)[`, ends with `]{os}<2222>/4444\`, has only the uptime between them, and a non-negative uptime is all digits |
| NetworkMessages.ExampleAwayMessage | src/test/java/net/usikkert/kouchat/net/NetworkMessagesTest.java:75-80 | code 11515687, nick Christian, text "I am away" give exactly the text in the test's comment |
| NetworkMessages.ExampleChatMessage | src/test/java/net/usikkert/kouchat/net/NetworkMessagesTest.java:99-104 | the comment's example with own colour -15987646 comes out character for character |
| NetworkMessages.ExampleFileAcceptMessage | src/test/java/net/usikkert/kouchat/net/NetworkMessagesTest.java:201-217 | the comment's SENDFILEACCEPT example comes out character for character |
| NetworkMessages.ExamplePrivateMessage | src/test/java/net/usikkert/kouchat/net/NetworkMessagesTest.java:294-311 | the comment's PRIVMSG example comes out character for character and goes to that user alone |
| NetworkMessages.ExampleTopicMessage | src/test/java/net/usikkert/kouchat/net/NetworkMessagesTest.java:329-338 | the comment's TOPIC example comes out character for character |
| Wire.EncodeStartsWithHeader | src/test/java/net/usikkert/kouchat/net/NetworkMessagesTest.java:373-375 | every message text begins with `code!TYPE#nick:` for its own type's token |
| Wire.PayloadEmptyIff | src/test/java/net/usikkert/kouchat/net/NetworkMessagesTest.java:86-144 | the payload is empty exactly for the nine header-only types, for NICK, and for AWAY or NICKCRASH with empty text |
| Wire.DecodeEncode | src/test/java/net/usikkert/kouchat/net/NetworkMessagesTest.java:373-386 | for messages whose fields avoid the closing delimiters (Readable), reading the text back recovers the code, the header nick and the message |
| Wire.EncodeInjective | src/test/java/net/usikkert/kouchat/net/NetworkMessagesTest.java:373-386 | two readable messages with the same text are the same message from the same code and header nick |
| MessageTypes.FromTokenOfToken | src/test/java/net/usikkert/kouchat/net/NetworkMessagesTest.java:373-375 | every message type's header token names that type and no other |
| MessageTypes.TokenInjective | src/test/java/net/usikkert/kouchat/net/NetworkMessagesTest.java:373-375 | distinct message types have distinct tokens |
| Text.IntToString | src/test/java/net/usikkert/kouchat/net/NetworkMessagesTest.java:100-103 | Java's decimal text of an int or long is non-empty, starts with '-' exactly for negative values, and has no leading zero: it starts with '0' only for zero itself, and a negative value's first digit is not '0' |
| Text.ParseIntOfIntToString | src/test/java/net/usikkert/kouchat/net/NetworkMessagesTest.java:100-103 | reading a number's decimal text back yields the number, negative own colours included |
| Text.IntToStringInjective | src/test/java/net/usikkert/kouchat/net/NetworkMessagesTest.java:100-103 | two numbers print the same exactly when they are equal |
| Text.IntToStringAvoids | src/test/java/net/usikkert/kouchat/net/NetworkMessagesTest.java:163-166 | a number's text holds no field delimiter, so a number can sit inside `(…)`, `[…]` or `{…}` |

## Left out

- The NetworkMessages class is not part of this model. Its output format is taken from NetworkMessagesTest, which builds each expected text by concatenation. The send functions are those expectations.
- The NetworkService calls and their boolean results are I/O. Each send function returns the text and its destination (all users, or one user), and nothing is sent. So the error path is not modelled: sendChatMessage, sendFile, sendFileAccept and sendPrivateMessage throw a CommandException when the message could not be sent (NetworkMessagesTest.java:96, :149, :198, :291).
- `settings.getOwnColor()`, `file.hashCode()`, the client version string, the operating system name, the uptime and topic timestamps come from the runtime. They are parameters here.
- The test's regular expression for the CLIENT message's middle (`matches(middle)`) is not modelled as a regular expression. TestSendClientMessage states instead what lies between the prefix and the suffix: the uptime's digits.
- Wire.Decode is a reference reader written only to show that the format is unambiguous. KouChat's own message parser is not part of this model.
- Wire.DecodeEncode: the round trip is stated only for Readable messages. The header nick must not contain ':', the client string must not contain ')', the operating system must not contain '}', and a topic's nick must not contain ')'. The wire format has no escaping, so other messages may be ambiguous, and Wire.Decode, which splits at the first delimiter, does not read them back.
- The NICK comment at NetworkMessagesTest.java:281 shows `14795611!NICK#Christian:`. That sample does not show which nick it carries. The test's own call at line 284 is `createMessage("NICK", newNick)`, which puts the new nick in the header, and SendNickMessage follows the call.
- The other fourteen example texts in the test's comments are not restated as lemmas. Their general form is what each Send function's ensures states.
- NetworkMessages.TestSendClientMessage: the digits-only middle is stated only for an uptime that is not negative. SendClient accepts any Int64, and a negative uptime would print `[-…]`. The test's `\d+` at line 114 accepts only a non-negative uptime, so the property is stated for those alone.
- Misc.CommandHistory.Add: Java's `add(null)` throws a NullPointerException at CommandHistory.java:66. Dafny strings cannot be null, so that path is not modelled.
- Misc.UpMoves: stepping up past the oldest entry does not return an empty result, as one might expect of a recall list. The code's goUp at index 0 keeps the cursor at 0 and returns `history[0]` again (CommandHistory.java:97-101). UpMoves states what the code does.
- The user directory, nick-collision handling and the file-transfer state machine are not part of this model.
- Misc.IsTrimmed: Java's String.trim removes every character at or below U+0020. Dafny characters are Unicode scalar values, so UTF-16 surrogate pairs are not distinguished from the characters they encode.
- Misc.CommandHistory: `history` is a `seq<string>` that the methods reassign, not an ArrayList mutated in place. No other object can alias it.
- Java's `int` cursor cannot overflow here, because it stays between 0 and 49. Integer widths elsewhere are the subset types Int32 and Int64, and encoding never does arithmetic on them.
- Concurrency and Swing threading are out of scope.
- The Swing classes SwingMediator, SettingsDialog, TransferDialog, SysTray and FileTransferHandler are UI code and not part of this model. So is the renderer test NetworkChoiceCellRendererTest.
