/** The vocabulary of wire message types and the token each one carries in the header. */
module MessageTypes {
  import opened Wrappers

  datatype MessageType =
    | Away | Back | Msg | Client | Expose | Exposing
    | SendFile | SendFileAbort | SendFileAccept
    | GetTopic | Idle | Logoff | Logon
    | NickCrash | Nick | PrivMsg | StoppedWriting | Topic | Writing

  /** The token between `!` and `#` in the header. */
  function Token(t: MessageType): (r: string)
    ensures |r| > 0 && '#' !in r && '!' !in r && ':' !in r
  {
    match t
    case Away => "AWAY"
    case Back => "BACK"
    case Msg => "MSG"
    case Client => "CLIENT"
    case Expose => "EXPOSE"
    case Exposing => "EXPOSING"
    case SendFile => "SENDFILE"
    case SendFileAbort => "SENDFILEABORT"
    case SendFileAccept => "SENDFILEACCEPT"
    case GetTopic => "GETTOPIC"
    case Idle => "IDLE"
    case Logoff => "LOGOFF"
    case Logon => "LOGON"
    case NickCrash => "NICKCRASH"
    case Nick => "NICK"
    case PrivMsg => "PRIVMSG"
    case StoppedWriting => "STOPPEDWRITING"
    case Topic => "TOPIC"
    case Writing => "WRITING"
  }

  /** The type a header token names, or None for a token outside the vocabulary. */
  function FromToken(s: string): (r: Option<MessageType>)
    ensures r.Some? ==> Token(r.value) == s
  {
    if s == "AWAY" then Some(Away)
    else if s == "BACK" then Some(Back)
    else if s == "MSG" then Some(Msg)
    else if s == "CLIENT" then Some(Client)
    else if s == "EXPOSE" then Some(Expose)
    else if s == "EXPOSING" then Some(Exposing)
    else if s == "SENDFILE" then Some(SendFile)
    else if s == "SENDFILEABORT" then Some(SendFileAbort)
    else if s == "SENDFILEACCEPT" then Some(SendFileAccept)
    else if s == "GETTOPIC" then Some(GetTopic)
    else if s == "IDLE" then Some(Idle)
    else if s == "LOGOFF" then Some(Logoff)
    else if s == "LOGON" then Some(Logon)
    else if s == "NICKCRASH" then Some(NickCrash)
    else if s == "NICK" then Some(Nick)
    else if s == "PRIVMSG" then Some(PrivMsg)
    else if s == "STOPPEDWRITING" then Some(StoppedWriting)
    else if s == "TOPIC" then Some(Topic)
    else if s == "WRITING" then Some(Writing)
    else None
  }

  /** Every type has its own token: reading a token back gives the type it came from. */
  lemma FromTokenOfToken(t: MessageType)
    ensures FromToken(Token(t)) == Some(t)
  {
  }

  lemma TokenInjective(t: MessageType, u: MessageType)
    ensures Token(t) == Token(u) <==> t == u
  {
    FromTokenOfToken(t);
    FromTokenOfToken(u);
  }
}
