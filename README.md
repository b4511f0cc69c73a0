# whapp-irc: the IRC command handler

whapp-irc bridges a WhatsApp account to an IRC client. Every chat of the
account is an IRC channel (group chats) or an IRC nick (direct chats). This
project models `Connection.handleIRCCommand`, the function that acts on each
command the client sends. It covers all nine commands the function handles
(PRIVMSG, JOIN, PART, MODE, LIST, WHO, WHOIS, KICK and INVITE), and it proves
what each of them does to three things:

- the session's chat table: which chats are known and which are joined;
- the lines written back to the client;
- the calls made into the WhatsApp backend, plus one logged entry for each
  call of the connection's own `joinChat` helper.

Layout:

- `strings.dfy` (module `Strings`): the parts of Go's `strings` package the
  handler uses. `Lower` is lower-casing. `Split` is splitting on commas; it
  is proved to be the inverse of joining with commas.
- `chats.dfy` (module `Chats`): the chat table and the two first-match scans
  over it. `Lookup` finds a chat by IRC identifier (`GetChatByIdentifier`).
  `FirstMatch` and its loop `FindParticipant` find a participant by
  case-insensitive nick.
- `protocol.dfy` (module `Protocol`): the parsed message, the reply lines,
  the backend calls, and the `Oracle`. The oracle gives the answer of every
  backend operation and whether each write to the client goes through.
- `commands.dfy` (module `Commands`): what JOIN, PART, WHO and WHOIS compute,
  as recursive functions over the chat table and the oracle, with the lemmas
  about them. It also holds the loops of JOIN, PART and WHOIS as methods
  proved equal to those functions.
- `connection.dfy` (module `Irc`): the `Connection` class. Its fields are the
  chat table (`chats`), the output log (`out`) and the backend call log
  (`calls`). It has one method per command and `HandleIRCCommand`, which
  dispatches on the command word. The session invariant `Valid` says no two
  chats share an identifier.

Every command's whole effect on the three fields is a two-state predicate
of the class (`PrivMsgEffect`, `JoinEffect`, ..., `InviteEffect`). The
command's method ensures it, and `HandleIRCCommand` ensures it for that
command word, applied to the message parameters in the order the command
reads them (INVITE takes the nick first and the channel second, KICK the
other way round). For the looping commands the effect is stated through the
functions in `Commands`, and the properties of those functions are lemmas.
`HandleIRCCommand` also states the cross-command facts:

- only JOIN and PART change the chat table, and they change nothing but
  `joined` flags;
- JOIN only sets those flags and PART only clears them;
- PART and LIST make no backend call;
- an unhandled command does nothing.

Behaviour of the code that the model keeps as written:

- A JOIN whose identifier does not resolve reports `chat not found: `
  followed by the whole comma-separated parameter, not the failing token
  (ircCommands.go:53). This is what the code does, and the model follows
  the code.
- A JOIN or PART that stops part-way keeps the effect of the identifiers
  before the failing one. Nothing is rolled back.
- The line MODE writes after a successful `-o` still says `+o`
  (ircCommands.go:114).
- WHO returns the error of a failed 352 write immediately, so no 315 line
  follows it. The error of every other informational write (the 322, 323,
  311, 319, 318 and 315 lines) is ignored.

## Model

| member | source | states |
|---|---|---|
| Strings.Lower | ircCommands.go:214 | `strings.ToLower`: maps each character with ASCII lower-casing, so the result has the length of the input |
| Strings.LowerIsLower | ircCommands.go:80 | lower-casing leaves no upper-case letter, is the identity on lower-case text, and is idempotent |
| Strings.Split | ircCommands.go:49 | the pieces are never an empty list, contain no comma, and joined with commas give back the parameter |
| Strings.SplitJoinComma | ircCommands.go:62 | splitting a comma-joined list of comma-free pieces gives back the list (the other direction of the round trip) |
| Chats.SetJoined | ircCommands.go:70 | setting a chat's flag changes that flag only; every other chat and every other field stay the same |
| Chats.Lookup | ircCommands.go:33-36 | a found chat is in the table and carries the identifier looked up |
| Chats.LookupFirst | ircCommands.go:33-36 | the chat found is the first with that identifier, and none is found exactly when no chat has it |
| Chats.LookupIdentifier | ircCommands.go:168-172 | with unique identifiers, looking up a chat's own identifier finds that chat |
| Chats.LookupSameExceptJoined | ircCommands.go:64-70 | changing `joined` flags never changes what an identifier resolves to |
| Chats.Resolved | ircCommands.go:50-54 | the chats a comma list resolves to, in order, stop exactly at the first identifier that does not resolve |
| Chats.ResolvedSameExceptJoined | ircCommands.go:62-71 | changing `joined` flags never changes what a comma list resolves to |
| Chats.FirstMatch | ircCommands.go:98-101 | the participant chosen is the first whose lower-cased nick matches; none is chosen exactly when none matches |
| Chats.FindParticipant | ircCommands.go:226-229 | the participant loop of MODE and KICK returns exactly the first match |
| Commands.MessageBody | ircCommands.go:22-25 | the body PRIVMSG sends: `_` + text + `_` for a CTCP ACTION, the second parameter otherwise (its properties are `ActionBody`) |
| Commands.ActionBody | ircCommands.go:22-25 | a CTCP ACTION is sent as its text with one underscore on each side, and the text can be read back; anything else is sent as the second parameter |
| Commands.JoinRun | ircCommands.go:49-59 | the JOIN specification: over the comma-separated identifiers, resolve each, stop at the first that does not resolve, else call `joinChat`, stop on its error, else set `joined` and go on; it yields the new table, the calls and why it stopped |
| Commands.JoinRunKeepsChats | ircCommands.go:48-59 | JOIN changes no chat except in its `joined` flag |
| Commands.JoinRunLength | ircCommands.go:50-58 | JOIN makes at most one `joinChat` helper call per resolved chat. It stops after the failed call, or at the first unresolved identifier, or at the end of the list |
| Commands.JoinRunCallTargets | ircCommands.go:50-56 | the `joinChat` helper calls go to the resolved chats, in the order of the list |
| Commands.JoinRunSucceeded | ircCommands.go:56-58 | every chat JOIN counts as joined was answered without error |
| Commands.JoinRunLastCall | ircCommands.go:56-57 | a JOIN ended by an error made the failing join its last call, and reports the helper's error text |
| Commands.JoinRunFailure | ircCommands.go:56-57 | a JOIN ended by an error failed on the chat right after the ones it joined |
| Commands.JoinRunFlags | ircCommands.go:49-59 | no rollback: after JOIN a chat is joined exactly when it was before or JOIN joined it successfully |
| Commands.JoinStopsAtUnresolved | ircCommands.go:51-54 | a JOIN ended by an unknown identifier stopped on that identifier, and every identifier before it resolved |
| Commands.JoinChats | ircCommands.go:49-59 | the JOIN loop computes exactly the chat table, calls and stopping reason of the JOIN specification |
| Commands.PartRun | ircCommands.go:62-71 | the PART specification: over the identifiers, stop at the first that does not resolve, else clear its `joined` flag and go on; it yields the new table and whether every identifier resolved |
| Commands.PartChats | ircCommands.go:62-71 | the PART loop computes exactly the chat table and completion of the PART specification |
| Commands.PartRunSpec | ircCommands.go:62-71 | PART clears the flag of every chat resolved before the first unknown identifier and of no other. It changes nothing else, and completes exactly when every identifier resolves |
| Commands.PartKeepsChats | ircCommands.go:69-70 | after PART every identifier resolves exactly as before, so a parted chat is still known |
| Commands.Stamp | ircCommands.go:145-149 | the away flag of a 352 line: "G" when presence was found, without error, and offline; "H" otherwise |
| Commands.WhoRun | ircCommands.go:140-163 | the WHO specification: for each participant not the own account, one presence lookup and one 352 line written at the next output position, stopping after the first write that fails |
| Commands.OthersSpec | ircCommands.go:140-143 | the participants WHO reports on are exactly those that are not the session's own account |
| Commands.OthersOrder | ircCommands.go:140-143 | WHO keeps the participant order and count: the i-th reported participant is the one at the i-th position, in increasing order, of exactly the participants that are not the own account |
| Commands.WhoRunLines | ircCommands.go:140-159 | WHO makes one presence lookup and one 352 line per other participant, in order. Its stamp is G exactly when presence was found, without error, and offline |
| Commands.WhoRunWrites | ircCommands.go:160-162 | every 352 write before the last one succeeded, and WHO failed only on its last write; when none failed, all participants were written |
| Commands.WhoRunFails | ircCommands.go:160-162 | WHO's loop ends early exactly when one of the writes it would make fails |
| Commands.ConvertedSpec | ircCommands.go:189-199 | the 319 list holds an identifier exactly when some common group converts to it, and loses a group only when its conversion fails |
| Commands.Converted | ircCommands.go:189-198 | the identifiers of the common groups whose conversion succeeds, in group order; failed conversions are skipped |
| Commands.ConvertedOrder | ircCommands.go:189-198 | the 319 list keeps group order and count: its i-th identifier is that of the group at the i-th position, in increasing order, of exactly the groups whose conversion succeeds |
| Commands.CollectIdentifiers | ircCommands.go:187-199 | the WHOIS loop collects exactly the converted identifiers, in group order |
| Commands.CommonChannels | ircCommands.go:183-208 | the 319 line of WHOIS: present only when the common groups were fetched without error and there is at least one, and then listing their converted identifiers |
| Irc.Connection.Write | ircCommands.go:15 | a write appends its line to the output and returns whether it reached the client |
| Irc.Connection.Status | ircCommands.go:16 | a status notice appends one notice line, changes nothing else, and returns whether that write reached the client |
| Irc.Connection.PrivMsg | ircCommands.go:19-46 | `status` as target does nothing. An unknown target gives only "unknown chat". Otherwise the body is sent to the chat, and a failed send is reported |
| Irc.Connection.Join | ircCommands.go:48-59 | the chat table and calls after JOIN are those of the JOIN specification. One notice reports an unknown identifier with the whole parameter, or reports a failed join |
| Irc.Connection.Part | ircCommands.go:61-71 | the chat table after PART is that of the PART specification. There is no backend call, and "unknown chat" is reported when an identifier does not resolve |
| Irc.Connection.Mode | ircCommands.go:73-115 | MODE is silent for a parameter count other than 3 and for a flag other than ±o. The chat is looked up before the flag is checked. The first matching participant gets SetAdmin and then one MODE line that reads "+o"; no match is silent |
| Irc.ListedChannels | ircCommands.go:119-133 | with distinct identifiers, each 322 line written for a chat names a channel that resolves back to that chat |
| Irc.Connection.IdentifiersResolve | ircCommands.go:33-36 | in a session whose chats have distinct identifiers, resolving a chat's own identifier gives back that chat |
| Irc.Connection.List | ircCommands.go:117-134 | LIST writes one 322 line per chat, in table order. The count is the participant count for a group and 2 otherwise. Exactly one 323 line follows, last. Each channel listed resolves back to the chat it was listed for |
| Irc.Connection.Who | ircCommands.go:136-165 | WHO writes the 352 lines of the WHO specification for a group and none otherwise. The 315 line follows unless a 352 write failed, and only then does WHO return an error |
| Irc.Connection.WhoParticipants | ircCommands.go:140-163 | the WHO loop makes exactly the calls and writes of the WHO specification and reports whether a write failed |
| Irc.Connection.Whois | ircCommands.go:167-210 | WHOIS gives 401 alone for an unknown or group target. Otherwise it writes 311, then 319 only when the common groups were fetched without error and are non-empty, then 318. These three lines carry the chat's own identifier, which equals the string asked about only under the exact-match lookup model |
| Irc.Connection.Kick | ircCommands.go:212-242 | KICK gives 403 and no call for an unknown or direct chat. Otherwise the first matching participant is removed, a failure is reported, and no match is silent |
| Irc.Connection.Invite | ircCommands.go:244-275 | INVITE checks the group (442) before the person (401), then adds the person's chat to the group and reports a failure |
| Irc.Connection.HandleIRCCommand | ircCommands.go:14-279 | each of the nine command words has exactly the effect of its command on the parameters that command reads (PRIVMSG target and text, JOIN/PART/WHO/WHOIS first parameter, MODE all of them, KICK channel then nick, INVITE nick then channel). Only JOIN and PART change the chat table, and only its `joined` flags. JOIN only sets them, PART only clears them, and PART and LIST make no call. Unhandled commands change nothing |

## Left out

- main.go is not part of this model: it sets up the bridge and the connection.
- The WhatsApp backend, the socket and `convertChat` are the `Oracle`'s
  answers. Each is a function of its arguments, so within one command the
  same call gets the same answer.
- Irc.Connection.Join: `conn.joinChat` is a helper method of the connection
  whose code is not part of this model. Each call is modelled as one logged
  `JoinChat` entry whose outcome the oracle gives, and success sets
  `joined`. Nothing else the helper may do (backend calls, lines written to
  the client) is modelled, and no such line is counted in the output
  positions of later writes.
- Chats.Lookup: `GetChatByIdentifier` is modelled as a first-match search of
  the known chats by exact equality with the stored identifier. Its code is
  not part of this model, and any normalisation it does is not modelled.
  Neither is its resolution of unknown identifiers through the backend.
- Strings.Lower: lower-casing is ASCII only; Unicode case mapping is not
  modelled.
- ctcp.Decode and IRC line parsing are not modelled. The message arrives
  already parsed, with the result of decoding its trailing parameter.
- Irc.Connection.Status: `conn.irc.Status` is not part of this model. It is
  taken to write one notice line and to return that write's error.
- Reply lines are structured values, not the exact text `fmt.Sprintf`
  produces. The 319 list is kept as a sequence, not joined by spaces.
- `ircConnection.LogMessage`, `log.Println` and `time.Now` have no effect on
  the model.
- Indexing past the end of `msg.Params` panics in Go. The model instead
  requires the parameters each command indexes (`HasParams`).
- The connection's write lock and concurrent use of the connection are not
  modelled; one command runs at a time.
