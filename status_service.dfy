/**
 The gateway of StatusServer/StatusServiceImpl.cpp and include/StatusServiceImpl.h:
 a registry of chat servers keyed by name, with a load counter per server, and
 a map from user id to the session token issued last.

 The `unordered_map` that holds the registry iterates in an order the standard
 leaves unspecified; the model makes that order explicit as the field `order`.
 Tokens come from a UUID generator and enter the model as parameters.
 */
module StatusService {
  import opened Config

  /** `struct ChatServer`: where a chat server listens and how many clients it holds. */
  datatype ChatServer = ChatServer(host: string, port: string, name: string, conCount: int)

  /** `ChatServer()`: empty host, port and name, and no connections. */
  const DefaultServer := ChatServer("", "", "", 0)

  /**
   `ChatServer::operator=`: overwrites host, name, port and connection count
   with the other server's, unless `&cs == this` (`sameObject`), in which case
   it returns early. Either way the target ends equal to `cs`.
   */
  function Assign(self: ChatServer, cs: ChatServer, sameObject: bool): (r: ChatServer)
    requires sameObject ==> self == cs
    ensures r == cs
    ensures sameObject ==> r == self
  {
    if sameObject then self
    else self.(host := cs.host).(name := cs.name).(port := cs.port).(conCount := cs.conCount)
  }

  /** The `ErrorCodes` the gateway reports; their numeric values are not used. */
  datatype ErrorCode = Success | UidInvalid | TokenInvalid

  /** `LoginRsp`: uid and token are set only on success (protobuf defaults otherwise). */
  datatype LoginRsp = LoginRsp(error: ErrorCode, uid: int, token: string)

  /** `GetChatServerRsp`. */
  datatype GetChatServerRsp = GetChatServerRsp(host: string, port: string, token: string, error: ErrorCode)

  /** The chat server described by section `section` of the configuration, with no load. */
  function ServerFromConfig(cfg: ConfigMgr, section: string): (s: ChatServer)
    ensures s.conCount == 0
    ensures s.name == cfg.Lookup(section, "Name")
    ensures section in cfg.sections && "Host" in cfg.sections[section].data ==> s.host == cfg.sections[section].data["Host"]
    ensures section in cfg.sections && "Port" in cfg.sections[section].data ==> s.port == cfg.sections[section].data["Port"]
    ensures section in cfg.sections && "Name" in cfg.sections[section].data ==> s.name == cfg.sections[section].data["Name"]
    ensures section in cfg.sections && "Host" !in cfg.sections[section].data ==> s.host == ""
    ensures section in cfg.sections && "Port" !in cfg.sections[section].data ==> s.port == ""
    ensures section !in cfg.sections ==> s == DefaultServer
  {
    ChatServer(cfg.Lookup(section, "Host"), cfg.Lookup(section, "Port"), cfg.Lookup(section, "Name"), 0)
  }

  class StatusServiceImpl {
    /** `_servers`: the registry, keyed by server name. */
    var servers: map<string, ChatServer>
    /** The iteration order of `_servers`: every key exactly once. */
    var order: seq<string>
    /** `_tokens`: the token issued last to each uid. */
    var tokens: map<int, string>

    /** The registry invariant: `order` lists each key once, and each entry sits under its own name. */
    ghost predicate Valid()
      reads this
    {
      && (forall i, j :: 0 <= i < j < |order| ==> order[i] != order[j])
      && (forall n :: n in servers <==> n in order)
      && (forall n :: n in servers ==> servers[n].name == n)
    }

    /**
     `StatusServiceImpl()`: registers the servers of sections ChatServer1 and
     ChatServer2 under their names with load 0; the second replaces the first
     when the two names are equal. No tokens exist yet.
     */
    constructor (cfg: ConfigMgr)
      ensures Valid()
      ensures var s1, s2 := ServerFromConfig(cfg, "ChatServer1"), ServerFromConfig(cfg, "ChatServer2");
        && servers == map[s1.name := s1][s2.name := s2]
        && (s1.name == s2.name ==> |servers| == 1 && servers[s2.name] == s2)
      ensures tokens == map[]
    {
      var server := DefaultServer;
      server := server.(port := cfg.Section("ChatServer1").Get("Port"));
      server := server.(host := cfg.Section("ChatServer1").Get("Host"));
      server := server.(name := cfg.Section("ChatServer1").Get("Name"));
      server := server.(conCount := 0);
      var registry := map[server.name := server];
      var names := [server.name];

      server := server.(port := cfg.Section("ChatServer2").Get("Port"));
      server := server.(host := cfg.Section("ChatServer2").Get("Host"));
      server := server.(name := cfg.Section("ChatServer2").Get("Name"));
      server := server.(conCount := 0);
      if server.name !in registry {
        names := names + [server.name];
      }
      registry := registry[server.name := server];
      servers, order, tokens := registry, names, map[];
    }

    /**
     `getChatServer`: on an empty registry the default server; otherwise a copy
     of a registered server whose load is no larger than any other's, the first
     such in iteration order (a later server replaces the running minimum only
     when its load is strictly smaller).
     */
    method SelectServer() returns (s: ChatServer, ghost at: nat)
      requires Valid()
      ensures order == [] ==> s == DefaultServer
      ensures order != [] ==> s.name in servers && servers[s.name] == s
      ensures order != [] ==> forall n :: n in servers ==> s.conCount <= servers[n].conCount
      ensures order != [] ==> at < |order| && order[at] == s.name
      ensures order != [] ==> forall j :: 0 <= j < at ==> servers[order[j]].conCount > s.conCount
    {
      if |order| == 0 {
        return DefaultServer, 0;
      }
      s := servers[order[0]];
      at := 0;
      var i := 1;
      while i < |order|
        invariant 1 <= i <= |order|
        invariant 0 <= at < i && s == servers[order[at]]
        invariant forall j :: 0 <= j < i ==> s.conCount <= servers[order[j]].conCount
        invariant forall j :: 0 <= j < at ==> servers[order[j]].conCount > s.conCount
      {
        if servers[order[i]].conCount < s.conCount {
          s := servers[order[i]];
          at := i;
        }
        i := i + 1;
      }
    }

    /**
     `updateServerConnectionCount`: adds `delta` to the load of the named server
     only; an unknown name changes nothing (the source only logs it).
     */
    method UpdateServerConnectionCount(serverName: string, delta: int)
      requires Valid()
      modifies this`servers
      ensures Valid()
      ensures serverName in old(servers) ==>
        servers == old(servers)[serverName := old(servers)[serverName].(conCount := old(servers)[serverName].conCount + delta)]
      ensures serverName !in old(servers) ==> servers == old(servers)
    {
      if serverName in servers {
        var entry := servers[serverName];
        servers := servers[serverName := entry.(conCount := entry.conCount + delta)];
      }
    }

    /** `insertToken`: binds `uid` to `token`, creating or overwriting the entry. */
    method InsertToken(uid: int, token: string)
      modifies this`tokens
      ensures tokens == old(tokens)[uid := token]
    {
      tokens := tokens[uid := token];
    }

    /**
     `Login`: UidInvalid when no token is on file for the uid, TokenInvalid when
     the stored token differs from the presented one, and otherwise SUCCESS
     echoing uid and token. It only reads the token map.
     */
    function Login(uid: int, token: string): (r: LoginRsp)
      reads this
      ensures r.error == UidInvalid <==> uid !in tokens
      ensures r.error == TokenInvalid <==> uid in tokens && tokens[uid] != token
      ensures r.error == Success <==> uid in tokens && tokens[uid] == token
      ensures r.error == Success ==> r.uid == uid && r.token == token
      ensures r.error != Success ==> r.uid == 0 && r.token == ""
    {
      if uid !in tokens then LoginRsp(UidInvalid, 0, "")
      else if tokens[uid] != token then LoginRsp(TokenInvalid, 0, "")
      else LoginRsp(Success, uid, token)
    }

    /**
     `GetChatServer`: selects the least-loaded server, replies with its host and
     port and the fresh `token`, binds the token to `uid`, then adds 1 to the
     selected server's load. It always reports SUCCESS; on an empty registry the
     reply carries the default server's empty host and port and no load changes.
     */
    method GetChatServer(uid: int, token: string) returns (reply: GetChatServerRsp, ghost selected: ChatServer, ghost at: nat)
      requires Valid()
      modifies this`servers, this`tokens
      ensures Valid() && order == old(order)
      ensures reply.error == Success && reply.token == token
      ensures tokens == old(tokens)[uid := token]
      ensures Login(uid, token).error == Success
      ensures forall t :: t != token ==> Login(uid, t).error == TokenInvalid
      ensures old(order) == [] ==> servers == old(servers) && reply.host == "" && reply.port == ""
      ensures old(order) == [] ==> selected == DefaultServer
      ensures old(order) != [] ==> selected.name in old(servers) && old(servers)[selected.name] == selected
      ensures old(order) != [] ==> forall m :: m in old(servers) ==> selected.conCount <= old(servers)[m].conCount
      ensures old(order) != [] ==> at < |old(order)| && old(order)[at] == selected.name
      ensures old(order) != [] ==> forall j :: 0 <= j < at ==> old(servers)[old(order)[j]].conCount > selected.conCount
      ensures reply.host == selected.host && reply.port == selected.port
      ensures old(order) != [] ==> servers == old(servers)[selected.name := selected.(conCount := selected.conCount + 1)]
    {
      var server;
      server, at := SelectServer();
      selected := server;
      reply := GetChatServerRsp(server.host, server.port, token, Success);
      InsertToken(uid, reply.token);
      UpdateServerConnectionCount(server.name, 1);
    }
  }

  /**
   Issuing twice to one uid: the second token replaces the first, so the first
   is now refused while the second is accepted.
   */
  method IssueTwice(svc: StatusServiceImpl, uid: int, first: string, second: string)
    requires svc.Valid() && first != second
    modifies svc
    ensures svc.Valid()
    ensures svc.Login(uid, first).error == TokenInvalid
    ensures svc.Login(uid, second) == LoginRsp(Success, uid, second)
  {
    var r1, s1, a1 := svc.GetChatServer(uid, first);
    var r2, s2, a2 := svc.GetChatServer(uid, second);
  }
}
