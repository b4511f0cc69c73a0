// What the command handler consumes and produces: the parsed IRC message, the
// outbound reply lines, the calls it makes into the chat backend, and the
// outcomes of everything outside the handler (backend answers and socket
// writes), which the model takes as an oracle.
module Protocol {
  import opened Chats

  /** The result of CTCP-decoding a message's trailing parameter:
      `ok` says it was a CTCP message at all. */
  datatype Ctcp = Ctcp(tag: string, text: string, ok: bool)

  /** The CTCP tag of an action ("/me") message. */
  const ActionTag := "ACTION"

  /** A parsed inbound IRC line: the command word, its parameters, and the
      CTCP decoding of its trailing parameter. */
  datatype Message = Message(command: string, params: seq<string>, ctcp: Ctcp)

  /** The commands the handler acts on; every other command is ignored. */
  predicate IsHandled(command: string)
  {
    command in {"PRIVMSG", "JOIN", "PART", "MODE", "LIST", "WHO", "WHOIS", "KICK", "INVITE"}
  }

  /** The parameters each command indexes without checking their number
      (indexing past them would make the handler panic). */
  predicate HasParams(msg: Message)
  {
    (msg.command in {"PRIVMSG", "KICK", "INVITE"} ==> |msg.params| >= 2) &&
    (msg.command in {"JOIN", "PART", "WHO", "WHOIS"} ==> |msg.params| >= 1)
  }

  /** One outbound line. `nick` is the client's nick; numerics are sent with
      the server name `whapp-irc` as prefix. */
  datatype Reply =
    | StatusNotice(text: string)                                   // notice from the `status` pseudo-user
    | ModeEcho(nick: string, channel: string, flag: string, target: string)  // `:<nick> MODE <channel> <flag> <target>`
    | ListItem(nick: string, channel: string, members: nat, name: string)    // 322
    | ListEnd(nick: string)                                        // 323 End of LIST
    | WhoItem(nick: string, channel: string, user: string, stamp: string, fullName: string)  // 352
    | WhoEnd(nick: string, channel: string)                        // 315 End of /WHO list.
    | WhoisUser(nick: string, target: string, name: string)        // 311
    | WhoisChannels(nick: string, target: string, channels: seq<string>)  // 319, channels joined by spaces
    | WhoisEnd(nick: string, target: string)                       // 318 End of /WHOIS list.
    | NoSuchNick(nick: string, target: string)                     // 401
    | NoSuchChannel(nick: string, target: string)                  // 403
    | NotOnChannel(nick: string, target: string)                   // 442

  /** A call the handler makes outside itself: into the chat backend, except
      for `JoinChat`, which records one call of the connection's own
      `joinChat` helper (whose code is not modelled), not a backend operation. */
  datatype BackendCall =
    | SendMessage(chat: ChatId, body: string)
    | JoinChat(chat: ChatId)
    | SetAdmin(chat: ChatId, user: UserId, op: bool)
    | RemoveParticipant(chat: ChatId, user: UserId)
    | AddParticipant(chat: ChatId, invitee: ChatId)
    | GetPresence(user: UserId)
    | GetCommonGroups(contact: ChatId)

  /** The answer of a backend operation that can only fail. */
  datatype CallResult = Done | Failed(text: string)

  /** A presence lookup: the user's state, whether a record was found, and
      whether the lookup itself failed. */
  datatype PresenceLookup = PresenceLookup(online: bool, found: bool, failed: bool)

  /** The groups shared with a contact, or the error of fetching them. */
  datatype GroupsResult = Groups(groups: seq<ChatId>) | GroupsFailed(text: string)

  /** Everything the handler asks of the world outside it. `joinChat` is the
      outcome of the connection's `joinChat` helper. `convertChat` gives
      the IRC identifier of a group chat, or None when converting it fails;
      `writeOk(k)` says whether the k-th line written on the connection
      (counting from 0) reached the client. */
  datatype Oracle = Oracle(
    sendMessage: (ChatId, string) -> CallResult,
    joinChat: ChatId -> CallResult,
    setAdmin: (ChatId, UserId, bool) -> CallResult,
    removeParticipant: (ChatId, UserId) -> CallResult,
    addParticipant: (ChatId, ChatId) -> CallResult,
    presence: UserId -> PresenceLookup,
    commonGroups: ChatId -> GroupsResult,
    convertChat: ChatId -> Option<string>,
    writeOk: nat -> bool)

  /** The error value the handler returns: nil or the error of a write. */
  datatype Outcome = Ok | WriteError

  /** The outcome of writing the line at position `pos` of the output. */
  function WriteResult(o: Oracle, pos: nat): Outcome
  {
    if o.writeOk(pos) then Ok else WriteError
  }
}
