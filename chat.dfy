/**
 * The server-side bookkeeping of the chat service: the `ChatServer` registry
 * (client list, channel-name set, message counter, active flag, time of the
 * last activity) and one `ClientHandler` per connection (nickname, current
 * channel, per-client message counter).
 *
 * Every `ChatServer` method runs under the server's monitor, so each call is
 * one atomic step and the model is sequential. A line sent to a client is
 * appended to that client's outbox; closing its connection sets its closed
 * flag; the clock is a parameter in milliseconds.
 */
module Chat {
  import opened Wrappers
  import opened Text
  import opened Commands

  /** Milliseconds without activity after which the idle check shuts the server down. */
  const Timeout := 180000

  /** The default channel: every client starts in it and it is never removed for being empty. */
  const General := "general"

  // Lines the server sends.
  const Welcome := "Welcome to the ChatServer, choose a name: "
  const InvalidName := "Invalid name. Choose another"
  const NicknameTaken := "Nickname is already taken. Choose another"
  const NickUsage := "Usage: /nick <nickname>"
  const JoinUsage := "Usage: /join <channel>"
  const InvalidChannel := "Invalid channel, choose a different one"
  const CannotLeaveGeneral := "You cannot leave the default 'general' channel."
  const Goodbye := "Goodbye!"
  const ShutdownNotice := "Server is shutting down. Goodbye! Type /quit to exit."
  const ClientsHeader := "\nList of connected clients: "
  const ChannelsHeader := "\nList of channels in the server: "
  const HelpLines := [
    "List of available commands: \n",
    "/nick <nickname> - sets your nickname",
    "/list - lists all available channels",
    "/join <channel> - joins a channel",
    "/leave - leaves the current channel",
    "/quit - quits the server",
    "/help - displays this message"
  ]

  function NicknameSet(nickname: string): string {
    "Nickname set to: " + nickname
  }

  function YouJoined(channel: string): string {
    "You have joined channel: " + channel
  }

  function LeftChannel(nickname: string, channel: string): string {
    "User " + nickname + " has left the channel: " + channel
  }

  function JoinedChannel(nickname: string, channel: string): string {
    "User " + nickname + " has joined the channel: " + channel
  }

  function ChannelRemoved(channel: string): string {
    "Channel '" + channel + "' has been removed as it is now empty."
  }

  function ChatLine(channel: string, nickname: string, line: string): string {
    "[" + channel + "] " + nickname + ": " + line
  }

  function LeftServer(nickname: string): string {
    nickname + " has left the server"
  }

  predicate Distinct<T(==)>(s: seq<T>) {
    forall i, j :: 0 <= i < j < |s| ==> s[i] != s[j]
  }

  /** What a broadcast to `target` adds to the outbox of a client whose current channel is `channel`. */
  function Receives(channel: string, target: string, message: string): seq<string> {
    if EqualsIgnoreCase(channel, target) then [message] else []
  }

  /** A broadcast reaches a client exactly when the two channel names agree after lower-casing. */
  lemma ReceivesExactlyMembers(channel: string, target: string, message: string)
    ensures Receives(channel, target, message) == (if Lower(channel) == Lower(target) then [message] else [])
  {
    EqualsIgnoreCaseIsLowerEquality(channel, target);
  }

  /** The client list after `removeIf` has dropped every handler whose nickname is `nickname`. */
  function Retained(hs: seq<ClientHandler>, nickname: string): (r: seq<ClientHandler>)
    reads hs`nickname
    ensures forall h :: h in r ==> h in hs && h.nickname != nickname
    ensures forall h :: h in hs && h.nickname != nickname ==> h in r
    ensures Distinct(hs) ==> Distinct(r)
  {
    if hs == [] then []
    else (if hs[0].nickname == nickname then [] else [hs[0]]) + Retained(hs[1..], nickname)
  }

  /** Removal keeps the survivors in their original order: it distributes over concatenation. */
  lemma {:induction false} RetainedAppend(a: seq<ClientHandler>, b: seq<ClientHandler>, nickname: string)
    ensures Retained(a + b, nickname) == Retained(a, nickname) + Retained(b, nickname)
    decreases |a|
  {
    if a == [] {
      assert a + b == b;
    } else {
      assert (a + b)[1..] == a[1..] + b;
      RetainedAppend(a[1..], b, nickname);
    }
  }

  /** When no handler carries the nickname, the list is left exactly as it was. */
  lemma {:induction false} RetainedNoMatch(hs: seq<ClientHandler>, nickname: string)
    requires forall h :: h in hs ==> h.nickname != nickname
    ensures Retained(hs, nickname) == hs
    decreases |hs|
  {
    if hs != [] {
      RetainedNoMatch(hs[1..], nickname);
    }
  }

  /** Removing by the empty nickname drops every client that has not chosen a name yet. */
  lemma RetainedDropsUnnamed(hs: seq<ClientHandler>)
    ensures forall h :: h in hs && h.nickname == "" ==> h !in Retained(hs, "")
    ensures forall h :: h in hs && h.nickname != "" ==> h in Retained(hs, "")
  {
  }

  /** The answer `readLine` gives for line `k` of the input: the line, or null past its end. */
  function Answer(input: seq<string>, k: nat): (r: Option<string>)
    ensures r.Some? <==> k < |input|
    ensures r.Some? ==> r.value == input[k]
  {
    if k < |input| then Some(input[k]) else None
  }

  /**
   * What the naming prompt sends when `k` taken answers come before the last
   * one: the welcome line, one refusal per taken answer, then the verdict of
   * handleNickname on the last answer (null past the end of the input).
   */
  function LoginReplies(input: seq<string>, k: nat): seq<string> {
    var last := Answer(input, k);
    [Welcome] + seq(k, _ => NicknameTaken)
      + (if last.None? || Trim(last.value) == "" then [InvalidName] else [NicknameSet(last.value)])
  }

  /** Two different handlers carry the same nickname, and it is not the empty one. */
  predicate Clash(c: ClientHandler, d: ClientHandler)
    reads c`nickname, d`nickname
  {
    c != d && c.nickname != "" && c.nickname == d.nickname
  }

  /** The command line `main` accepts. */
  function ServerArguments(port: string, debugLevel: string): seq<string> {
    ["-p", port, "-d", debugLevel]
  }

  /**
   * `main`'s argument check: the port and debug-level texts, or None when it
   * prints the usage line and exits with status 1.
   */
  function ParseArguments(args: seq<string>): (r: Option<(string, string)>)
    ensures r.Some? ==> args == ServerArguments(r.value.0, r.value.1)
    ensures forall port, debugLevel :: args == ServerArguments(port, debugLevel) ==> r == Some((port, debugLevel))
  {
    if |args| != 4 || args[0] != "-p" || args[2] != "-d" then None else Some((args[1], args[3]))
  }

  /** Started with `-d 1`, the server as written still runs at debug level 0, so no debug line is ever logged. */
  method DebugLevelIgnored() returns (s: ChatServer)
    ensures s.debugLevel == 0
  {
    s := new ChatServer.AsWritten(5000, 1, 0);
  }

  /** With the parameters stored, `-d 1` turns the debug logging on. */
  method DebugLevelKept() returns (s: ChatServer)
    ensures s.debugLevel == 1
  {
    s := new ChatServer(5000, 1, 0);
  }

  class ChatServer {
    const port: int
    const debugLevel: int
    var clients: seq<ClientHandler>
    var channels: set<string>
    var totalMessages: nat
    var active: bool
    var lastActivity: int

    /**
     * The registry invariant: each handler is listed once and belongs to this
     * server, every listed client's channel is registered and lower-case,
     * "general" is registered once any client exists, and no two listed
     * clients share a nickname other than the empty one.
     */
    ghost predicate Valid()
      reads this`clients, this`channels, clients`channel, clients`nickname
    {
      && Distinct(clients)
      && (forall c :: c in clients ==> c.server == this && c.channel in channels && IsLowerCase(c.channel))
      && (clients != [] ==> General in channels)
      && (forall c, d {:trigger Clash(c, d)} :: c in clients && d in clients ==> !Clash(c, d))
    }

    /** A new server, keeping the port and the debug level it was started with. */
    constructor (port: int, debugLevel: int, now: int)
      ensures this.port == port && this.debugLevel == debugLevel
      ensures clients == [] && channels == {} && totalMessages == 0 && active && lastActivity == now
      ensures Valid()
    {
      this.port := port;
      this.debugLevel := debugLevel;
      clients := [];
      channels := {};
      totalMessages := 0;
      active := true;
      lastActivity := now;
    }

    /**
     * The constructor as the Java code has it: the `port` and `debugLevel`
     * parameters are never stored, so both fields keep their default 0.
     */
    constructor AsWritten(port: int, debugLevel: int, now: int)
      ensures this.port == 0 && this.debugLevel == 0
      ensures clients == [] && channels == {} && totalMessages == 0 && active && lastActivity == now
      ensures Valid()
    {
      this.port := 0;
      this.debugLevel := 0;
      clients := [];
      channels := {};
      totalMessages := 0;
      active := true;
      lastActivity := now;
    }

    /** Some listed client is in the channel, compared ignoring case. */
    predicate HasMember(channelName: string)
      reads this`clients, clients`channel
    {
      exists c :: c in clients && EqualsIgnoreCase(c.channel, channelName)
    }

    /** Some listed client has exactly this nickname. */
    predicate HasNickname(nickname: string)
      reads this`clients, clients`nickname
    {
      exists c :: c in clients && c.nickname == nickname
    }

    /** One turn of the accept loop: a handler for the new connection joins the client list. */
    method Accept(now: int) returns (h: ClientHandler)
      requires Valid()
      modifies this
      ensures Valid() && fresh(h)
      ensures h.server == this && h.nickname == "" && h.channel == General
      ensures h.sent == 0 && h.outbox == [] && !h.closed
      ensures clients == old(clients) + [h]
      ensures channels == old(channels) + {General}
      ensures totalMessages == old(totalMessages) && active == old(active) && lastActivity == now
    {
      h := new ClientHandler(this);
      clients := clients + [h];
      UpdateLastActivityTime(now);
    }

    /** A snapshot of the connected clients. */
    method GetClients() returns (snapshot: set<ClientHandler>)
      ensures forall c :: c in snapshot <==> c in clients
    {
      snapshot := set c | c in clients;
    }

    /** A snapshot of the registered channel names. */
    method GetChannelLists() returns (snapshot: set<string>)
      ensures snapshot == channels
    {
      snapshot := channels;
    }

    method AddChannel(channelName: string)
      modifies this`channels
      ensures channels == old(channels) + {channelName}
    {
      channels := channels + {channelName};
    }

    /** Nothing calls it; it keeps the registry invariant only when no listed client needs the name. */
    method RemoveChannel(channelName: string)
      modifies this`channels
      ensures channels == old(channels) - {channelName}
      ensures old(Valid()) && (clients != [] ==> channelName != General) ==>
        (Valid() <==> forall c :: c in clients ==> c.channel != channelName)
    {
      channels := channels - {channelName};
    }

    method GetTotalMessages() returns (n: nat)
      ensures n == totalMessages
    {
      n := totalMessages;
    }

    method IncrementTotalMessages()
      modifies this`totalMessages
      ensures totalMessages == old(totalMessages) + 1
    {
      totalMessages := totalMessages + 1;
    }

    method IsServerActive() returns (b: bool)
      ensures b == active
    {
      b := active;
    }

    method UpdateLastActivityTime(now: int)
      modifies this`lastActivity
      ensures lastActivity == now
    {
      lastActivity := now;
    }

    /**
     * Sends the message to every listed client in the channel and to no one
     * else, then counts one message and records the activity.
     */
    method BroadcastMessage(message: string, senderNickname: string, channelName: string, now: int)
      requires Valid()
      modifies this`totalMessages, this`lastActivity, clients`outbox
      ensures Valid()
      ensures forall c :: c in clients ==> c.outbox == old(c.outbox) + Receives(c.channel, channelName, message)
      ensures totalMessages == old(totalMessages) + 1 && lastActivity == now
    {
      var i := 0;
      while i < |clients|
        invariant 0 <= i <= |clients| && Distinct(clients)
        invariant forall k :: 0 <= k < i ==>
          clients[k].outbox == old(clients[k].outbox) + Receives(clients[k].channel, channelName, message)
        invariant forall k :: i <= k < |clients| ==> clients[k].outbox == old(clients[k].outbox)
        invariant totalMessages == old(totalMessages)
      {
        if clients[i].IsInChannel(channelName) {
          clients[i].SendMessageToClient(message);
        }
        i := i + 1;
      }
      IncrementTotalMessages();
      UpdateLastActivityTime(now);
    }

    /** Drops every client whose nickname equals the given one, keeping the others in order. */
    method RemoveClient(nickname: string, now: int)
      requires Valid()
      modifies this`clients, this`lastActivity
      ensures Valid()
      ensures clients == Retained(old(clients), nickname)
      ensures lastActivity == now
    {
      clients := Retained(clients, nickname);
      UpdateLastActivityTime(now);
    }

    /**
     * Removes the lower-cased channel when it is not "general" and no listed
     * client is in it; a removal is announced to that (empty) channel.
     */
    method RemoveChannelIfEmpty(channelName: string, now: int)
      requires Valid()
      modifies this`channels, this`totalMessages, this`lastActivity, clients`outbox
      ensures Valid()
      ensures forall c :: c in clients ==> c.outbox == old(c.outbox)
      ensures var n := Lower(channelName);
        if n == General || HasMember(n) then
          unchanged(this)
        else
          && channels == old(channels) - {n}
          && totalMessages == old(totalMessages) + (if n in old(channels) then 1 else 0)
          && lastActivity == (if n in old(channels) then now else old(lastActivity))
      // The state reached is one on which a repeated call changes nothing.
      ensures var n := Lower(channelName); n == General || HasMember(n) || n !in channels
    {
      var n := Lower(channelName);
      if n == General {
        return;
      }
      var isEmpty := true;
      var i := 0;
      while i < |clients|
        invariant 0 <= i <= |clients|
        invariant isEmpty <==> forall k :: 0 <= k < i ==> !clients[k].IsInChannel(n)
        invariant unchanged(this) && forall c :: c in clients ==> c.outbox == old(c.outbox)
      {
        if clients[i].IsInChannel(n) {
          isEmpty := false;
          break;
        }
        i := i + 1;
      }
      if isEmpty {
        var removed := n in channels;
        channels := channels - {n};
        if removed {
          assert forall c :: c in clients ==> Receives(c.channel, n, ChannelRemoved(n)) == [];
          BroadcastMessage(ChannelRemoved(n), "Server", n, now);
        }
      }
    }

    /** Whether some listed client already uses the nickname (compared exactly). */
    method IsNicknameTaken(nickname: string) returns (taken: bool)
      ensures taken <==> HasNickname(nickname)
    {
      var i := 0;
      while i < |clients|
        invariant 0 <= i <= |clients|
        invariant forall k :: 0 <= k < i ==> clients[k].nickname != nickname
      {
        if clients[i].nickname == nickname {
          return true;
        }
        i := i + 1;
      }
      return false;
    }

    /** The periodic idle check: shuts the server down exactly when it has been idle too long. */
    method CheckIdle(now: int)
      requires Valid()
      modifies this`active, clients`outbox, clients`closed
      ensures Valid()
      ensures now - lastActivity > Timeout ==> !active
      ensures now - lastActivity <= Timeout ==> active == old(active)
      ensures forall c :: c in clients ==>
        if old(active) && now - lastActivity > Timeout then
          c.outbox == old(c.outbox) + [ShutdownNotice] && c.closed
        else
          c.outbox == old(c.outbox) && c.closed == old(c.closed)
    {
      var idleDuration := now - lastActivity;
      if idleDuration > Timeout {
        CloseServer();
      }
    }

    /**
     * Shuts the server down once: the first call clears the active flag and
     * tells every listed client before closing it; later calls do nothing.
     */
    method CloseServer()
      requires Valid()
      modifies this`active, clients`outbox, clients`closed
      ensures Valid()
      ensures !active
      ensures forall c :: c in clients ==>
        if old(active) then
          c.outbox == old(c.outbox) + [ShutdownNotice] && c.closed
        else
          c.outbox == old(c.outbox) && c.closed == old(c.closed)
    {
      if !active {
        return;
      }
      active := false;
      var i := 0;
      while i < |clients|
        invariant 0 <= i <= |clients| && Distinct(clients) && !active
        invariant forall k :: 0 <= k < i ==> clients[k].outbox == old(clients[k].outbox) + [ShutdownNotice] && clients[k].closed
        invariant forall k :: i <= k < |clients| ==> clients[k].outbox == old(clients[k].outbox) && clients[k].closed == old(clients[k].closed)
      {
        clients[i].SendMessageToClient(ShutdownNotice);
        clients[i].CloseClient();
        i := i + 1;
      }
    }
  }

  class ClientHandler {
    const server: ChatServer
    var nickname: string
    var channel: string
    /** The number of messages this client has sent to its channel. */
    var sent: nat
    /** Every line sent to this client, oldest first. */
    var outbox: seq<string>
    /** The connection has been closed. */
    var closed: bool

    /** The current channel is always lower-case. */
    ghost predicate Valid()
      reads this`channel
    {
      IsLowerCase(channel)
    }

    /** A new handler has no nickname, starts in "general" and registers it. */
    constructor (server: ChatServer)
      modifies server`channels
      ensures this.server == server && Valid()
      ensures nickname == "" && channel == General && sent == 0 && outbox == [] && !closed
      ensures server.channels == old(server.channels) + {General}
    {
      this.server := server;
      nickname := "";
      channel := General;
      sent := 0;
      outbox := [];
      closed := false;
      new;
      server.AddChannel(General);
    }

    method SendMessageToClient(message: string)
      modifies this`outbox
      ensures outbox == old(outbox) + [message]
    {
      outbox := outbox + [message];
    }

    method CloseClient()
      modifies this`closed
      ensures closed
    {
      closed := true;
    }

    /** Closing the reader, the writer and the socket. */
    method CloseAll()
      modifies this`closed
      ensures closed
    {
      closed := true;
    }

    /** Whether the client is in the channel, ignoring case. */
    function IsInChannel(name: string): (r: bool)
      reads this`channel
      ensures r <==> Lower(channel) == Lower(name)
    {
      EqualsIgnoreCaseIsLowerEquality(channel, name);
      EqualsIgnoreCase(channel, name)
    }

    /** Only this client's own outbox changed, by `lines`. */
    twostate predicate Replied(lines: seq<string>)
      reads this, server, server.clients
    {
      && outbox == old(outbox) + lines
      && nickname == old(nickname) && channel == old(channel) && sent == old(sent)
      && OthersUnchanged()
    }

    /** The server and every other listed client are as they were. */
    twostate predicate OthersUnchanged()
      reads this, server, server.clients
    {
      && unchanged(server)
      && forall c :: c in server.clients && c != this ==> unchanged(c)
    }

    /** The nickname was accepted. */
    twostate predicate Renamed(name: string)
      reads this, server, server.clients
    {
      && nickname == name && outbox == old(outbox) + [NicknameSet(name)]
      && channel == old(channel) && sent == old(sent)
      && OthersUnchanged()
    }

    /** The effect of sending `message` to this client's channel. */
    twostate predicate Chatted(message: string, now: int)
      reads this, server, server.clients
    {
      && nickname == old(nickname) && channel == old(channel) && sent == old(sent) + 1
      && (this !in server.clients ==> outbox == old(outbox))
      && server.clients == old(server.clients) && server.channels == old(server.channels)
      && server.active == old(server.active)
      && server.totalMessages == old(server.totalMessages) + 2 && server.lastActivity == now
      && forall c :: c in server.clients ==> c.outbox == old(c.outbox) + Receives(c.channel, channel, message)
    }

    /**
     * The effect of moving from channel `from` to channel `to` as handleJoin
     * and handleLeave do it: a leave notice to `from`, the removal of `from`
     * when it is not "general" and no listed client was in it, the
     * confirmation, and a join notice to `to`. The notices reach this client
     * too when it is listed.
     */
    twostate predicate Moved(from: string, to: string, now: int)
      reads this, server, server.clients
    {
      var listed := this in old(server.clients);
      var vacated := from != General && !old(server.HasMember(from));
      var left := LeftChannel(nickname, from);
      var joined := JoinedChannel(nickname, to);
      && channel == to && nickname == old(nickname) && sent == old(sent) + 1 && closed == old(closed)
      && outbox == old(outbox) + (if listed then [left, YouJoined(to), joined] else [YouJoined(to)])
      && server.clients == old(server.clients) && server.active == old(server.active)
      && server.channels == (if vacated then old(server.channels) - {from} else old(server.channels)) + {to}
      && server.totalMessages == old(server.totalMessages) + 3 + (if vacated && from in old(server.channels) then 1 else 0)
      && server.lastActivity == now
      && forall c :: c in server.clients && c != this ==>
        c.outbox == old(c.outbox) + Receives(c.channel, from, left) + Receives(c.channel, to, joined)
    }

    /** The effect of LeaveChannel. */
    twostate predicate Departed(now: int)
      reads this, server, server.clients
    {
      var from := channel;
      var vacated := from != General && !old(server.HasMember(from));
      var left := LeftChannel(nickname, from);
      && channel == old(channel) && nickname == old(nickname) && sent == old(sent) + 1 && closed == old(closed)
      && outbox == old(outbox) + (if this in old(server.clients) then [left] else [])
      && server.clients == old(server.clients) && server.active == old(server.active)
      && server.lastActivity == now
      && server.channels == (if vacated then old(server.channels) - {from} else old(server.channels))
      && server.totalMessages == old(server.totalMessages) + 2 + (if vacated && from in old(server.channels) then 1 else 0)
      && forall c :: c in server.clients && c != this ==> c.outbox == old(c.outbox) + Receives(c.channel, from, left)
    }

    /** The effect of EnterChannel. */
    twostate predicate Entered(to: string, now: int)
      reads this, server, server.clients
    {
      var joined := JoinedChannel(nickname, to);
      && channel == to && nickname == old(nickname) && sent == old(sent) && closed == old(closed)
      && outbox == old(outbox) + [YouJoined(to)] + (if this in server.clients then [joined] else [])
      && server.clients == old(server.clients) && server.active == old(server.active)
      && server.lastActivity == now
      && server.channels == old(server.channels) + {to}
      && server.totalMessages == old(server.totalMessages) + 1
      && forall c :: c in server.clients && c != this ==> c.outbox == old(c.outbox) + Receives(c.channel, to, joined)
    }

    /**
     * A listed client still occupies its old channel when that channel is
     * checked for emptiness, so a move never removes it.
     */
    twostate lemma MovedWhileListed(to: string, now: int)
      requires Moved(old(channel), to, now) && this in old(server.clients)
      ensures server.channels == old(server.channels) + {to}
      ensures server.totalMessages == old(server.totalMessages) + 3
    {
      assert old(EqualsIgnoreCase(channel, channel));
    }

    /** The reply of /list: the header, the nicknames in `order`, the second header and `listed`. */
    twostate predicate Listed(new order: seq<ClientHandler>, names: seq<string>, listed: seq<string>)
      reads this, server, server.clients, order
    {
      && Distinct(order)
      && (forall c :: c in order ==> c in server.clients)
      && (forall c :: c in server.clients ==> c in order)
      && |names| == |order| && (forall i :: 0 <= i < |order| ==> names[i] == order[i].nickname)
      && Distinct(listed) && (forall ch :: ch in listed <==> ch in server.channels)
      && Replied([ClientsHeader] + names + [ChannelsHeader] + listed)
    }

    /** Sends a message to the client's current channel and counts it, once here and twice on the server. */
    method SendMessageToAll(message: string, now: int)
      requires server.Valid()
      modifies this`sent, server`totalMessages, server`lastActivity, server.clients`outbox
      ensures server.Valid() && closed == old(closed)
      ensures Chatted(message, now)
    {
      server.BroadcastMessage(message, nickname, channel, now);
      sent := sent + 1;
      server.IncrementTotalMessages();
    }

    /** Accepts a nickname that is present, not blank and not used by any listed client. */
    method HandleNickname(name: Option<string>)
      requires server.Valid()
      modifies this`nickname, this`outbox
      ensures server.Valid()
      ensures
        if name.None? || Trim(name.value) == "" then Replied([InvalidName])
        else if old(server.HasNickname(name.value)) then Replied([NicknameTaken])
        else Renamed(name.value)
    {
      if name.None? || Trim(name.value) == "" {
        SendMessageToClient(InvalidName);
      } else {
        var taken := server.IsNicknameTaken(name.value);
        if taken {
          SendMessageToClient(NicknameTaken);
        } else {
          SendMessageToClient(NicknameSet(name.value));
          nickname := name.value;
        }
      }
    }

    method HandleHelp()
      modifies this`outbox
      ensures outbox == old(outbox) + HelpLines
    {
      var i := 0;
      while i < |HelpLines|
        invariant 0 <= i <= |HelpLines|
        invariant outbox == old(outbox) + HelpLines[..i]
      {
        SendMessageToClient(HelpLines[i]);
        i := i + 1;
      }
    }

    /** Sends this client the nicknames of the connected clients and the channel names, in set order. */
    method HandleList() returns (ghost order: seq<ClientHandler>, ghost names: seq<string>, ghost listed: seq<string>)
      requires server.Valid()
      modifies this`outbox
      ensures server.Valid()
      ensures Listed(order, names, listed)
    {
      order, names := ListClients();
      listed := ListChannels();
    }

    /** The first half of handleList: the header, then the nickname of every listed client. */
    method ListClients() returns (ghost order: seq<ClientHandler>, ghost names: seq<string>)
      modifies this`outbox
      ensures Distinct(order) && (forall c :: c in order <==> c in server.clients)
      ensures |names| == |order| && forall i :: 0 <= i < |order| ==> names[i] == order[i].nickname
      ensures outbox == old(outbox) + [ClientsHeader] + names
    {
      SendMessageToClient(ClientsHeader);
      var clientSnapshot := server.GetClients();
      order, names := SendNicknames(clientSnapshot);
    }

    /** The second half of handleList: the header, then every channel name. */
    method ListChannels() returns (ghost listed: seq<string>)
      modifies this`outbox
      ensures Distinct(listed) && (forall ch :: ch in listed <==> ch in server.channels)
      ensures outbox == old(outbox) + [ChannelsHeader] + listed
    {
      SendMessageToClient(ChannelsHeader);
      var channelSnapshot := server.GetChannelLists();
      listed := SendChannelNames(channelSnapshot);
    }

    /** The first loop of handleList: one line per client of the snapshot, in the order the set yields them. */
    method SendNicknames(snapshot: set<ClientHandler>) returns (ghost order: seq<ClientHandler>, ghost names: seq<string>)
      modifies this`outbox
      ensures Distinct(order) && (forall c :: c in order <==> c in snapshot)
      ensures |names| == |order| && forall i :: 0 <= i < |order| ==> names[i] == order[i].nickname
      ensures outbox == old(outbox) + names
    {
      order, names := [], [];
      var rest := snapshot;
      while rest != {}
        invariant rest <= snapshot
        invariant Distinct(order)
        invariant forall c :: c in order ==> c in snapshot && c !in rest
        invariant forall c :: c in snapshot ==> c in order || c in rest
        invariant |names| == |order| && forall i :: 0 <= i < |order| ==> names[i] == order[i].nickname
        invariant outbox == old(outbox) + names
        decreases |rest|
      {
        var c :| c in rest;
        SendMessageToClient(c.nickname);
        order, names := order + [c], names + [c.nickname];
        rest := rest - {c};
      }
    }

    /** The second loop of handleList: one line per channel name of the snapshot, in the order the set yields them. */
    method SendChannelNames(snapshot: set<string>) returns (ghost listed: seq<string>)
      modifies this`outbox
      ensures Distinct(listed) && (forall ch :: ch in listed <==> ch in snapshot)
      ensures outbox == old(outbox) + listed
    {
      listed := [];
      var rest := snapshot;
      while rest != {}
        invariant rest <= snapshot
        invariant Distinct(listed)
        invariant forall ch :: ch in listed ==> ch in snapshot && ch !in rest
        invariant forall ch :: ch in snapshot ==> ch in listed || ch in rest
        invariant outbox == old(outbox) + listed
        decreases |rest|
      {
        var ch :| ch in rest;
        SendMessageToClient(ch);
        listed := listed + [ch];
        rest := rest - {ch};
      }
    }

    /**
     * The first half of handleJoin and handleLeave: the leave notice goes to
     * the current channel, which is then removed if it is not "general" and
     * no listed client is in it.
     */
    method LeaveChannel(now: int)
      requires server.Valid() && Valid()
      modifies this`sent, server`channels, server`totalMessages, server`lastActivity, server.clients`outbox
      ensures server.Valid() && Valid()
      ensures Departed(now)
    {
      SendMessageToAll(LeftChannel(nickname, channel), now);
      assert server.HasMember(channel) == old(server.HasMember(channel));
      LowerOfLowerCase(channel);
      server.RemoveChannelIfEmpty(channel, now);
    }

    /**
     * The second half of handleJoin and handleLeave: the client switches to
     * the channel, registers it, is told so, and the join notice goes to it.
     */
    method EnterChannel(target: string, now: int)
      requires server.Valid() && IsLowerCase(target)
      modifies this`channel, this`outbox, server`channels, server`totalMessages, server`lastActivity, server.clients`outbox
      ensures server.Valid() && Valid()
      ensures Entered(target, now)
    {
      channel := target;
      server.AddChannel(target);
      SendMessageToClient(YouJoined(target));
      server.BroadcastMessage(JoinedChannel(nickname, target), nickname, target, now);
    }

    /** Moves the client to the lower-cased channel, which is registered afterwards. */
    method HandleJoin(channelName: string, now: int)
      requires server.Valid() && Valid()
      modifies this`channel, this`sent, this`outbox, server`channels, server`totalMessages, server`lastActivity, server.clients`outbox
      ensures server.Valid() && Valid() && closed == old(closed)
      ensures if channelName == "" then Replied([InvalidChannel]) else Moved(old(channel), Lower(channelName), now)
    {
      if channelName == "" {
        SendMessageToClient(InvalidChannel);
      } else {
        var target := Lower(channelName);
        LeaveChannel(now);
        EnterChannel(target, now);
      }
    }

    /** Returns the client to "general", unless it is already there. */
    method HandleLeave(now: int)
      requires server.Valid() && Valid()
      modifies this`channel, this`sent, this`outbox, server`channels, server`totalMessages, server`lastActivity, server.clients`outbox
      ensures server.Valid() && Valid() && closed == old(closed)
      ensures if old(channel) == General then Replied([CannotLeaveGeneral]) else Moved(old(channel), General, now)
    {
      if channel == General {
        SendMessageToClient(CannotLeaveGeneral);
      } else {
        LeaveChannel(now);
        assert IsLowerCase(General);
        EnterChannel(General, now);
      }
    }

    /** `/nick <name>`: the usage line for no name, a refusal for a taken one, else the rename. */
    twostate predicate NickHandled(name: string)
      reads this, server, server.clients
    {
      if name == "" then Replied([NickUsage])
      else if old(server.HasNickname(name)) then Replied([NicknameTaken])
      else Renamed(name)
    }

    /** `/join <channel>`: the usage line for no channel, else the move to the lower-cased channel. */
    twostate predicate JoinHandled(target: string, now: int)
      reads this, server, server.clients
    {
      if target == "" then Replied([JoinUsage]) else Moved(old(channel), Lower(target), now)
    }

    /** `/leave`: a refusal in the general channel, else the move back to it. */
    twostate predicate LeaveHandled(now: int)
      reads this, server, server.clients
    {
      if old(channel) == General then Replied([CannotLeaveGeneral]) else Moved(old(channel), General, now)
    }

    /**
     * The effect of the input line `line`, classified as `cmd`, command by
     * command (`/list`, whose reply depends on the order of the listing, is
     * stated apart).
     */
    twostate predicate Handled(cmd: Command, line: string, now: int)
      reads this, server, server.clients
    {
      match cmd
      case Nick(name) => NickHandled(name)
      case Join(target) => JoinHandled(target, now)
      case Leave => LeaveHandled(now)
      case Quit => Replied([Goodbye])
      case Help => Replied(HelpLines)
      case List => true
      case Chat => Chatted(ChatLine(old(channel), old(nickname), line), now)
    }

    /** `/nick` with its (trimmed) argument. */
    method NickCommand(name: string)
      requires server.Valid() && IsTrimmed(name)
      modifies this`nickname, this`outbox
      ensures server.Valid() && closed == old(closed) && channel == old(channel)
      ensures NickHandled(name)
    {
      if name != "" {
        TrimTrimmed(name);
        HandleNickname(Some(name));
      } else {
        SendMessageToClient(NickUsage);
      }
    }

    /** `/join` with its (trimmed) argument. */
    method JoinCommand(target: string, now: int)
      requires server.Valid() && Valid()
      modifies this`channel, this`sent, this`outbox, server`channels, server`totalMessages, server`lastActivity, server.clients`outbox
      ensures server.Valid() && Valid() && closed == old(closed)
      ensures JoinHandled(target, now)
    {
      if target != "" {
        HandleJoin(target, now);
      } else {
        SendMessageToClient(JoinUsage);
      }
    }

    /** Carries out one input line: one of the six commands, or chat to the current channel. */
    method HandleClientCommand(line: string, now: int)
      requires server.Valid() && Valid()
      modifies this, server`channels, server`totalMessages, server`lastActivity, server.clients`outbox
      ensures server.Valid() && Valid()
      ensures closed == (old(closed) || Classify(line) == Quit)
      ensures server.totalMessages >= old(server.totalMessages)
      ensures old(outbox) <= outbox
      ensures Handled(Classify(line), line, now)
      ensures Classify(line) == List ==> exists order, names, listed :: Listed(order, names, listed)
    {
      Execute(Classify(line), line, now);
    }

    /** Carries out the input line `line`, classified as `cmd`. */
    method Execute(cmd: Command, line: string, now: int)
      requires server.Valid() && Valid() && WellFormed(cmd)
      modifies this, server`channels, server`totalMessages, server`lastActivity, server.clients`outbox
      ensures server.Valid() && Valid()
      ensures closed == (old(closed) || cmd == Quit)
      ensures server.totalMessages >= old(server.totalMessages)
      ensures old(outbox) <= outbox
      ensures Handled(cmd, line, now)
      ensures cmd == List ==> exists order, names, listed :: Listed(order, names, listed)
    {
      match cmd
      case Nick(name) =>
        NickCommand(name);
      case Join(target) =>
        JoinCommand(target, now);
      case Leave =>
        HandleLeave(now);
      case Quit =>
        SendMessageToClient(Goodbye);
        CloseAll();
      case Help =>
        HandleHelp();
      case List =>
        ghost var order, names, listed := HandleList();
      case Chat =>
        SendMessageToAll(ChatLine(channel, nickname, line), now);
    }

    /**
     * The naming prompt: asks for a name until the answer is not a taken
     * nickname, then lets handleNickname judge it. Returns the number of
     * lines read: every answer before the last was taken and drew one
     * refusal, and the last one (null past the end of the input) is judged
     * as handleNickname does.
     */
    method Login(input: seq<string>) returns (pos: nat)
      requires server.Valid()
      modifies this`nickname, this`outbox
      ensures server.Valid()
      ensures 1 <= pos <= |input| + 1
      ensures forall i :: 0 <= i < pos - 1 ==> old(server.HasNickname(input[i]))
      ensures var last := Answer(input, pos - 1);
        && (last.Some? ==> !old(server.HasNickname(last.value)))
        && var prompts := [Welcome] + seq(pos - 1, _ => NicknameTaken);
        if last.None? || Trim(last.value) == "" then
          nickname == old(nickname) && outbox == old(outbox) + prompts + [InvalidName]
        else
          nickname == last.value && outbox == old(outbox) + prompts + [NicknameSet(last.value)]
    {
      var answer;
      pos, answer := PromptNickname(input);
      HandleNickname(answer);
    }

    /**
     * The naming loop: the welcome line, then one refusal for each answer
     * that is a taken nickname. Returns the number of lines read and the
     * last answer, which is null or not taken.
     */
    method PromptNickname(input: seq<string>) returns (pos: nat, answer: Option<string>)
      modifies this`outbox
      ensures 1 <= pos <= |input| + 1 && answer == Answer(input, pos - 1)
      ensures forall i :: 0 <= i < pos - 1 ==> server.HasNickname(input[i])
      ensures answer.Some? ==> !server.HasNickname(answer.value)
      ensures outbox == old(outbox) + [Welcome] + seq(pos - 1, _ => NicknameTaken)
    {
      SendMessageToClient(Welcome);
      pos := 0;
      answer := Answer(input, pos);
      pos := pos + 1;
      var taken := false;
      if answer.Some? {
        taken := server.IsNicknameTaken(answer.value);
      }
      while taken
        invariant 1 <= pos <= |input| + 1 && answer == Answer(input, pos - 1)
        invariant taken <==> answer.Some? && server.HasNickname(answer.value)
        invariant forall i :: 0 <= i < pos - 1 ==> server.HasNickname(input[i])
        invariant outbox == old(outbox) + [Welcome] + seq(pos - 1, _ => NicknameTaken)
        decreases |input| - pos
      {
        SendMessageToClient(NicknameTaken);
        answer := Answer(input, pos);
        pos := pos + 1;
        taken := false;
        if answer.Some? {
          taken := server.IsNicknameTaken(answer.value);
        }
      }
    }

    /** The command loop: handles the lines from `pos` on until the input ends or the connection is closed. */
    method Serve(input: seq<string>, pos: nat, now: int)
      requires server.Valid() && Valid()
      modifies this, server`channels, server`totalMessages, server`lastActivity, server.clients`outbox
      ensures server.Valid() && Valid()
      ensures server.totalMessages >= old(server.totalMessages)
      ensures old(outbox) <= outbox
    {
      var next := pos;
      while !closed && next < |input|
        invariant server.Valid() && Valid()
        invariant server.totalMessages >= old(server.totalMessages)
        invariant old(outbox) <= outbox
        decreases |input| - next
      {
        HandleClientCommand(input[next], now);
        next := next + 1;
      }
    }

    /**
     * The connection's life: the naming prompt, which repeats while the
     * answer is a taken nickname; the help; the command loop, which reads
     * until the input ends or the connection is closed; and the cleanup,
     * which drops every client with this client's nickname from the list and
     * announces the departure. On a connection that is already closed the
     * first read fails, so the session goes from the welcome line straight
     * to the cleanup.
     */
    method Run(input: seq<string>, now: int)
      requires server.Valid() && Valid()
      modifies this, server`clients, server`channels, server`totalMessages, server`lastActivity, server.clients`outbox
      ensures server.Valid() && Valid() && closed
      ensures this !in server.clients
      ensures forall c :: c in server.clients <==> c in old(server.clients) && c != this && old(c.nickname) != nickname
      ensures server.active == old(server.active)
      ensures server.totalMessages >= old(server.totalMessages) + 2
      ensures old(closed) ==> nickname == old(nickname) && outbox == old(outbox) + [Welcome]
      ensures old(closed) ==> server.clients == Retained(old(server.clients), nickname)
    {
      if closed {
        SendMessageToClient(Welcome);
      } else {
        var pos := Session(input, now);
      }
      Disconnect(now);
    }

    /**
     * An open connection up to the cleanup: the naming prompt, the help and
     * the command loop. Returns the number of lines the naming prompt read;
     * the client's output starts with the prompt's lines and the help, and
     * the command loop only adds to it.
     */
    method Session(input: seq<string>, now: int) returns (pos: nat)
      requires server.Valid() && Valid()
      modifies this, server`channels, server`totalMessages, server`lastActivity, server.clients`outbox
      ensures server.Valid() && Valid()
      ensures server.totalMessages >= old(server.totalMessages)
      ensures 1 <= pos <= |input| + 1
      ensures forall i :: 0 <= i < pos - 1 ==> old(server.HasNickname(input[i]))
      ensures var last := Answer(input, pos - 1); last.Some? ==> !old(server.HasNickname(last.value))
      ensures old(outbox) + LoginReplies(input, pos - 1) + HelpLines <= outbox
    {
      pos := Login(input);
      assert outbox == old(outbox) + LoginReplies(input, pos - 1);
      HandleHelp();
      Serve(input, pos, now);
    }

    /**
     * The cleanup after the loops: every client with this client's nickname
     * leaves the list, the departure goes to the current channel and the
     * connection is closed.
     */
    method Disconnect(now: int)
      requires server.Valid() && Valid()
      modifies this`sent, this`closed, server`clients, server`totalMessages, server`lastActivity, server.clients`outbox
      ensures server.Valid() && closed
      ensures server.clients == Retained(old(server.clients), nickname)
      ensures forall c :: c in old(server.clients) ==>
        c.outbox == old(c.outbox) + (if c in server.clients then Receives(c.channel, channel, LeftServer(nickname)) else [])
      ensures outbox == old(outbox) && sent == old(sent) + 1
      ensures server.totalMessages == old(server.totalMessages) + 2 && server.lastActivity == now
    {
      ghost var before := server.clients;
      server.RemoveClient(nickname, now);
      ghost var kept := server.clients;
      assert forall i :: 0 <= i < |kept| ==> kept[i] in before;
      assert forall c :: c in before ==> c.outbox == old(c.outbox);
      AnnounceDeparture(before, now);
    }

    /**
     * The last two steps of the cleanup, once the handlers with this
     * client's nickname have been dropped from `listed`: the departure
     * notice to the current channel, then closing the connection. The
     * dropped handlers receive nothing.
     */
    method AnnounceDeparture(ghost listed: seq<ClientHandler>, now: int)
      requires server.Valid() && server.clients == Retained(listed, nickname)
      modifies this`sent, this`closed, server`totalMessages, server`lastActivity, server.clients`outbox
      ensures server.Valid() && closed
      ensures Chatted(LeftServer(nickname), now)
      ensures server.clients == Retained(listed, nickname)
      ensures forall c :: c in listed ==>
        c.outbox == old(c.outbox) + (if c in server.clients then Receives(c.channel, channel, LeftServer(nickname)) else [])
    {
      SendMessageToAll(LeftServer(nickname), now);
      CloseAll();
    }
  }
}
