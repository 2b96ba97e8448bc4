# Chat server model

A Dafny model of the server side of a small multi-channel chat service
written in Java. The server keeps a registry of connected clients, the set of
channel names, a global message counter, an active flag and the time of the
last activity; each connection is served by a client handler that asks for a
nickname, then reads command lines (`/nick`, `/join`, `/leave`, `/quit`,
`/help`, `/list`) and treats every other line as chat to the client's current
channel.

- `wrappers.dfy` (`Wrappers`): `Option`, used for a line that may be absent
  (`readLine` returning null) and for the result of the argument check.
- `text.dfy` (`Text`): the Java string operations the handler relies on:
  `trim`, `split("\\s+", 2)`, `toLowerCase` and `equalsIgnoreCase`.
- `commands.dfy` (`Commands`): how a command line is tokenized and classified
  into a `Command`, with the round trip from a command to the line that
  issues it.
- `chat.dfy` (`Chat`): the `ChatServer` and `ClientHandler` classes, whose
  methods update their fields in place as the Java objects do. A line sent to
  a client is appended to that client's `outbox`, closing a connection sets
  its `closed` flag, and the clock is a `now` parameter in milliseconds.

The registry invariant `ChatServer.Valid` (each handler listed once, every
listed client's channel registered and lower-case, "general" registered once
anyone is connected, no nickname other than the empty one shared by two
listed clients) is kept by every operation the handlers and the server loop
use. `removeChannel`, which nothing calls, keeps it only when no listed client
is in the channel removed, and its contract says so.

Behaviour of the code a reader might not expect:

- A blank or missing name at the naming prompt gets "Invalid name. Choose
  another" but no new prompt; only a taken name is asked again
  (ClientHandler.java:54-58). The client goes on without a nickname. The
  empty answer counts as taken while any listed client (the asker too, once
  it is listed) has no nickname yet, so it is asked again.
- On a connection that is already closed (the idle shutdown may close it
  before its handler thread starts), the first `readLine` throws: the session
  goes from the welcome line straight to the cleanup, without the help.
- `/leave` ignores any argument and always returns to "general"; there is no
  "not in that channel" refusal (ClientHandler.java:198-199, 264-278).
- `removeChannelIfEmpty` runs only on `/join` and `/leave`, and before the
  client's own channel is changed (ClientHandler.java:250, 270). A listed
  client still occupies the channel it leaves at that point, so its own move
  never removes that channel (`MovedWhileListed`). Only a client that is no
  longer listed can trigger a removal: for instance an unnamed client dropped
  from the list when another unnamed client disconnected. A client
  disconnecting never removes its channel (ClientHandler.java:69-73).
- Clients are removed by nickname, so when a client without a nickname
  disconnects every other client without a nickname is dropped from the list
  as well (ChatServer.java:167-177).
- A chat line counts twice towards the global message counter: once in the
  broadcast and once more in `sendMessageToAll` (ChatServer.java:156,
  ClientHandler.java:144).

## Model

| member | source | states |
|---|---|---|
| Text.Trim | ClientHandler.java:161 | the result starts and ends with a character above U+0020 (or is empty) and is no longer than the input |
| Text.TrimPadded | ClientHandler.java:177 | `trim` of padding, a trimmed string and padding is exactly that trimmed string |
| Text.TrimTrimmed | ClientHandler.java:179 | `trim` leaves an already trimmed string unchanged (idempotence) |
| Text.TrimSplits | ClientHandler.java:177 | every string is its `trim` with strippable padding on both sides |
| Text.TrimIgnoresPadding | ClientHandler.java:177 | adding padding around a string does not change its `trim` |
| Text.SplitOnce | ClientHandler.java:177 | `split("\\s+", 2)`: the head has no whitespace; with no whitespace run the head is the whole string; otherwise head, a whitespace run and the rest make up the string, and the rest does not start with whitespace |
| Text.Lower | ClientHandler.java:178 | `toLowerCase` keeps the length and yields no upper-case letter |
| Text.LowerOfLowerCase | ChatServer.java:190 | lower-casing an already lower-case name changes nothing |
| Text.SameIgnoringCaseIsLowerEquality | ClientHandler.java:133 | two characters match ignoring case exactly when their lower-case forms are equal |
| Text.EqualsIgnoreCase | ClientHandler.java:133 | `equalsIgnoreCase`: the same length and, position by position, characters equal after upper-casing or after lower-casing |
| Text.EqualsIgnoreCaseIsLowerEquality | ClientHandler.java:133 | `equalsIgnoreCase` holds exactly when the lower-cased strings are equal, in both directions |
| Commands.Tokenize | ClientHandler.java:177-179 | the command token is lower-case and contains no whitespace; the argument is trimmed |
| Commands.TokenizeIgnoresPadding | ClientHandler.java:177 | padding around a line does not change its tokens |
| Commands.TokenizeWord | ClientHandler.java:177-179 | a single word tokenizes to its lower-cased form and the empty argument |
| Commands.SplitWords | ClientHandler.java:177 | a word, a whitespace run and a non-blank rest split into the word and the rest |
| Commands.TokenizeWords | ClientHandler.java:177-179 | a word, a whitespace run and a trimmed argument tokenize to the lower-cased word and that argument |
| Commands.TokenizeExample | ClientHandler.java:177-179 | `"  /NICK   bob  "` tokenizes to `("/nick", "bob")` |
| Commands.Classify | ClientHandler.java:181-218 | a line is chat exactly when its token is not one of the six keywords; `/nick` and `/join` carry the trimmed argument |
| Commands.KeywordIsWord | ClientHandler.java:181-213 | every command keyword is a lower-case word |
| Commands.TokenizeKeyword | ClientHandler.java:177-179 | a keyword alone, or followed by a space and a trimmed argument, tokenizes back to the keyword and the argument |
| Commands.ClassifyRender | ClientHandler.java:176-218 | reading back the line that issues a well-formed command yields that command (round trip) |
| Commands.LeaveIgnoresArgument | ClientHandler.java:198-199 | `/leave` in any letter case followed by any argument is the plain Leave command |
| Commands.UnknownSlashCommandIsChat | ClientHandler.java:215-217 | a single word outside the six keywords, such as `/stats`, is chat |
| Chat.ReceivesExactlyMembers | ChatServer.java:150-153 | a broadcast reaches a client exactly when its channel and the target agree after lower-casing |
| Chat.Retained | ChatServer.java:167-177 | the list after `removeIf`: exactly the handlers whose nickname differs, and still without duplicates |
| Chat.RetainedAppend | ChatServer.java:167-177 | removal keeps the survivors in their original order: it distributes over concatenation |
| Chat.RetainedNoMatch | ChatServer.java:167-177 | removing a nickname no one has leaves the list as it was |
| Chat.RetainedDropsUnnamed | ChatServer.java:167-177 | removing the empty nickname drops every unnamed client and keeps every named one |
| Chat.ParseArguments | ChatServer.java:341-345 | the arguments are accepted exactly when they read `-p <port> -d <debug level>`, and the two values are the ones given |
| Chat.DebugLevelIgnored | ChatServer.java:40-59 | the server as written, started with debug level 1, has debug level 0 |
| Chat.DebugLevelKept | ChatServer.java:40-59 | with the parameters stored, a server started with debug level 1 has debug level 1 |
| Chat.ClientHandler.Valid | ClientHandler.java:33 | the current channel is always lower-case: it starts as "general", `handleJoin` lower-cases the name it moves to (ClientHandler.java:246) and `handleLeave` returns to "general" (ClientHandler.java:273); every handler operation keeps it |
| Chat.ChatServer.Valid | ChatServer.java:28-29 | the registry invariant: each handler listed once and belonging to this server, each listed client's channel registered and lower-case, "general" registered once anyone is connected, and no shared non-empty nickname among listed clients |
| Chat.ChatServer.constructor | ChatServer.java:40-59 | a new server has no clients, no channels, a zero counter, is active and was last active now, and keeps the port and debug level it was given (corrected, see Findings) |
| Chat.ChatServer.AsWritten | ChatServer.java:40-59 | the constructor as written: the same start state, but port and debug level stay 0 |
| Chat.ChatServer.Accept | ChatServer.java:69-82 | a fresh handler (no nickname, in "general") is appended to the client list, "general" is registered and the activity time is now |
| Chat.ChatServer.GetClients | ChatServer.java:95-99 | the snapshot holds exactly the listed clients |
| Chat.ChatServer.GetChannelLists | ChatServer.java:104-106 | the snapshot is the set of channel names |
| Chat.ChatServer.AddChannel | ChatServer.java:113-115 | the channel set gains the name and nothing else changes |
| Chat.ChatServer.RemoveChannel | ChatServer.java:122-124 | the channel set loses the name and nothing else changes; from a valid registry, and unless it removes "general" while clients exist, the registry stays valid exactly when no listed client is in that channel |
| Chat.ChatServer.GetTotalMessages | ChatServer.java:131-133 | returns the message counter |
| Chat.ChatServer.IncrementTotalMessages | ChatServer.java:138-140 | the counter grows by one |
| Chat.ChatServer.IsServerActive | ChatServer.java:235-237 | returns the active flag |
| Chat.ChatServer.UpdateLastActivityTime | ChatServer.java:258-263 | the activity time becomes now |
| Chat.ChatServer.BroadcastMessage | ChatServer.java:149-160 | every listed client in the channel (ignoring case) receives the message once and no other client receives anything; the counter grows by one and the activity time is now |
| Chat.ChatServer.RemoveClient | ChatServer.java:167-181 | the client list becomes the old list without the handlers carrying the nickname, in order; the activity time is now |
| Chat.ChatServer.RemoveChannelIfEmpty | ChatServer.java:188-228 | "general" and a channel with a listed member are kept and nothing changes; otherwise the lower-cased name is removed and, only if it was registered, one (undelivered) notice is counted; afterwards a repeated call changes nothing |
| Chat.ChatServer.IsNicknameTaken | ChatServer.java:245-253 | true exactly when some listed client has that nickname |
| Chat.ChatServer.CheckIdle | ChatServer.java:268-281 | shuts the server down exactly when more than 180000 ms passed since the last activity, and otherwise changes nothing |
| Chat.ChatServer.CloseServer | ChatServer.java:295-308 | the first call clears the active flag, sends every listed client the shutdown notice and closes it; later calls change nothing |
| Chat.ClientHandler.constructor | ClientHandler.java:30-34 | a new handler has no nickname, is in "general" and registers "general" with the server |
| Chat.ClientHandler.SendMessageToClient | ClientHandler.java:102-108 | the message is appended to this client's output |
| Chat.ClientHandler.CloseClient | ClientHandler.java:118-124 | the connection is closed |
| Chat.ClientHandler.CloseAll | ClientHandler.java:305-315 | the connection is closed |
| Chat.ClientHandler.IsInChannel | ClientHandler.java:132-134 | true exactly when the current channel and the name agree after lower-casing |
| Chat.ClientHandler.SendMessageToAll | ClientHandler.java:141-145 | every listed client in this client's channel receives the message, no one else does, this client's count grows by one and the server counter by two |
| Chat.ClientHandler.HandleNickname | ClientHandler.java:160-169 | a missing or blank name is refused as invalid, a name a listed client has is refused as taken, otherwise the name is set and confirmed; nothing else changes |
| Chat.ClientHandler.HandleHelp | ClientHandler.java:283-291 | the seven help lines are sent in order |
| Chat.ClientHandler.SendNicknames | ClientHandler.java:227-229 | one line per client of the snapshot, each exactly once, carrying that client's nickname |
| Chat.ClientHandler.SendChannelNames | ClientHandler.java:232-234 | one line per channel name of the snapshot, each exactly once |
| Chat.ClientHandler.ListClients | ClientHandler.java:226-229 | the client header, then each listed client's nickname exactly once |
| Chat.ClientHandler.ListChannels | ClientHandler.java:231-234 | the channel header, then each channel name exactly once |
| Chat.ClientHandler.HandleList | ClientHandler.java:224-235 | the reply is the client header, every connected client's nickname once, the channel header and every channel name once; nothing else changes |
| Chat.ClientHandler.LeaveChannel | ClientHandler.java:249-250 | the leave notice reaches the channel's listed members; the channel is removed when it is not "general" and no listed client was in it |
| Chat.ClientHandler.EnterChannel | ClientHandler.java:253-257 | the client is in the channel, the channel is registered, the client is told and the join notice reaches the channel's listed members |
| Chat.ClientHandler.MovedWhileListed | ClientHandler.java:249-250 | a listed client still occupies the channel it leaves, so a move never removes that channel and adds exactly three to the counter |
| Chat.ClientHandler.HandleJoin | ClientHandler.java:242-259 | an empty name is refused; otherwise the client moves to the lower-cased channel with the leave and join notices, the vacated channel's removal and the counter as `Moved` states |
| Chat.ClientHandler.HandleLeave | ClientHandler.java:264-278 | a client in "general" is refused; otherwise it moves back to "general" as `Moved` states |
| Chat.ClientHandler.HandleClientCommand | ClientHandler.java:176-219 | each command's effect selected by the classified line (`Handled`), including the usage replies for a missing argument; the connection is closed exactly on `/quit`; this client's output only grows and the counter never decreases |
| Chat.ClientHandler.NickCommand | ClientHandler.java:182-188 | `/nick` without a name gets the usage line; otherwise the name is refused as taken or set and confirmed, as `NickHandled` states |
| Chat.ClientHandler.JoinCommand | ClientHandler.java:190-196 | `/join` without a channel gets the usage line; otherwise the client moves to the lower-cased channel as `Moved` states |
| Chat.ClientHandler.Execute | ClientHandler.java:181-218 | the dispatch on a classified command: `/nick`, `/join` and `/leave` as `NickHandled`, `JoinHandled` and `LeaveHandled` state, the goodbye on `/quit`, the help lines, the listing, or the chat line to the current channel |
| Chat.ClientHandler.PromptNickname | ClientHandler.java:52-57 | the welcome line, then one "taken" refusal per answer read before the last; every one of those answers was a taken nickname and the last answer is null or not taken |
| Chat.ClientHandler.Login | ClientHandler.java:52-58 | every answer before the last was taken and drew one refusal after the welcome line; a null or blank last answer is refused as invalid and leaves the nickname, otherwise the last answer becomes the nickname and is confirmed |
| Chat.ClientHandler.Serve | ClientHandler.java:61-64 | the command loop keeps the registry invariant, only adds to this client's output and never lowers the counter |
| Chat.ClientHandler.Session | ClientHandler.java:51-64 | the open connection before the cleanup: every answer before the last was a taken nickname and the last is null or not taken; the output starts with the welcome line, one refusal per taken answer, the verdict on the last answer and the seven help lines; the registry invariant holds and the counter never goes down |
| Chat.ClientHandler.AnnounceDeparture | ClientHandler.java:71-72 | the departure line reaches exactly the listed clients in the current channel, the handlers already dropped from the list receive nothing, the counter grows by two, and the connection is closed |
| Chat.ClientHandler.Disconnect | ClientHandler.java:69-73 | the client list becomes the old one without the handlers carrying this nickname, in order; exactly the remaining clients in the current channel receive the departure line and the clients `removeClient` dropped receive nothing; this client's output is unchanged; the counter grows by two and the connection is closed |
| Chat.ClientHandler.Run | ClientHandler.java:50-74 | after the session the connection is closed, the client is no longer listed, the others stay exactly when their nickname differs, and at least the departure was counted; on a connection already closed only the welcome line is sent, the nickname is unchanged and the list loses exactly the clients with that nickname |

## Findings

| source | as written | input that shows it | evidently intended | confidence | as-written member | corrected member |
|---|---|---|---|---|---|---|
| ChatServer.java:40-59 | the constructor never stores its `port` and `debugLevel` parameters, so both fields stay 0 and every `debugLevel == 1` test (ChatServer.java:75, 170, 194, 260, 277; ClientHandler.java:83) is false | `java ChatServer -p 5000 -d 1` | `-d 1` turns the debug logging on | high; not executed | Chat.DebugLevelIgnored | Chat.DebugLevelKept |

## Left out

- ChatClient.java is not part of this model.
- Sockets, readers and writers: output is an outbox per client and input is a sequence of lines. A read on a connection closed before the session starts, or by `/quit`, fails and leads to the cleanup as in the code; a connection that breaks in the middle of a session is not modelled, and the input simply ends there instead (at the naming prompt that means a null answer, which gets "Invalid name" and the help, where the failed read would go straight to the cleanup).
- The thread pool, the scheduler, the shutdown hook and `awaitTermination`: every server method is synchronized, so each call is modelled as one atomic step; `checkIdle` is called with the current time instead of by a timer.
- `System.currentTimeMillis` is the `now` parameter; `Run` and `Serve` use one `now` for the whole session.
- The accept loop starts the handler thread before adding it to the list; `Accept` lists it at once, and the handler's contracts also cover a handler that is not listed.
- Console logging and `handleClientDisconnection`, which only logs; the debug level is kept as a field but only selects log lines.
- `Integer.parseInt` of the port and debug level; `ParseArguments` returns the two texts.
- The trivial getters `getClientNickname`, `getChannel`, `getCurrentChannel`, `getClientSocket`, `getMessageNum` and `getDebugLevel`: the model reads the fields directly.
- The exception branches of the constructor and of `closeAll`, which send "Goodbye!" when the socket is already broken.
- Case mapping covers the ASCII letters only; Unicode case rules are not modelled.
- Chat.ChatServer.IncrementTotalMessages: the server counter and the per-client count `sent` (`totalMessagesFromOne`) are unbounded naturals; both Java `int`s wrap after 2^31 - 1.
- Chat.ClientHandler.HandleClientCommand: for `/list` it states that the reply lists every client and channel once in some order, since the order of a `HashSet` is not specified.
- Chat.ClientHandler.Serve: states only the invariant, that this client's output only grows and that the counter does not decrease; the effect of each line is stated by HandleClientCommand.
- Chat.ClientHandler.Session: states the naming prompt's outcome and the help lines as the start of the client's output, but of the command loop only what Serve states; the nickname after the loop and the other clients' output are not stated.
- Chat.ClientHandler.Run: states the registry, the closed connection and a lower bound on the counter, not the full history of the session.
