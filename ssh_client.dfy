/**
 * The SSH client that talks to the Soft Serve server: choosing how to
 * authenticate, running one command per connection, and the client methods
 * that send the commands of `Commands` and interpret their replies.
 *
 * The network is an oracle: a `Server` answers each command given who
 * connects and the commands tried before it, and keeps the log of every
 * command line the client tries to run, whether or not it gets through. Key parsing, file reading and the agent socket are
 * parameters (`Local`).
 */
module Ssh {
  import opened Wrappers
  import Text
  import Commands
  import Parser

  // ---------------------------------------------------------------------
  // Authentication
  // ---------------------------------------------------------------------

  /** A private key able to sign, known by the wire encoding of its public key. */
  datatype Signer = Signer(publicKey: string)

  /** What the agent offers: all its keys, or only the one matching an identity file. */
  datatype AgentAuth =
    | AllAgentKeys
    | MatchingKey(identityFile: string, wantKey: string)

  datatype AuthMethod = PublicKeys(signer: Signer) | AgentKeys(auth: AgentAuth)

  datatype ClientConfig = ClientConfig(
    host: string,
    port: int,
    username: string,
    privateKey: string,
    privateKeyPath: string,
    useAgent: bool,
    identityFile: string)

  /** A client ready to run commands: where it connects, as whom, and with which credentials. */
  datatype Client = Client(
    host: string,
    port: int,
    username: string,
    signer: Option<Signer>,
    agentConn: bool,
    agentAuth: Option<AgentAuth>)

  /**
   * The local facilities the client relies on: reading a file, parsing a
   * private key, parsing a public key in authorized_keys form (to its wire
   * encoding), the SSH_AUTH_SOCK variable and whether the agent socket accepts
   * a connection.
   */
  datatype Local = Local(
    readFile: string -> Result<string, string>,
    parsePrivateKey: string -> Result<Signer, string>,
    parseAuthorizedKey: string -> Result<string, string>,
    authSock: string,
    dialAgent: string -> bool)

  const NoAuthMethod := "no " + "authentication method available: provide a private key or enable SSH agent"

  /** The signer given by the configuration: key contents first, then a key file, else none. */
  function KeySigner(cfg: ClientConfig, local: Local): Result<Option<Signer>, string> {
    if cfg.privateKey != "" then
      match local.parsePrivateKey(cfg.privateKey)
      case Failure(e) => Failure("parsing private key: " + e)
      case Success(s) => Success(Some(s))
    else if cfg.privateKeyPath != "" then
      match local.readFile(cfg.privateKeyPath)
      case Failure(e) => Failure("reading private key file " + cfg.privateKeyPath + ": " + e)
      case Success(data) =>
        match local.parsePrivateKey(data)
        case Failure(e) => Failure("parsing private key from " + cfg.privateKeyPath + ": " + e)
        case Success(s) => Success(Some(s))
    else Success(None)
  }

  /** filteredAgentAuth before any authentication: the wanted key, read from the identity file. */
  function FilteredAgentAuth(local: Local, identityFile: string): (r: Result<AgentAuth, string>)
    ensures r.Success? ==> r.value.MatchingKey? && r.value.identityFile == identityFile
  {
    match local.readFile(identityFile)
    case Failure(e) => Failure("reading identity file " + identityFile + ": " + e)
    case Success(data) =>
      match local.parseAuthorizedKey(data)
      case Failure(e) => Failure("parsing public key from " + identityFile + ": " + e)
      case Success(want) => Success(MatchingKey(identityFile, want))
  }

  /** The agent set-up: whether a connection was opened, and the agent method, if any. */
  function AgentSetup(cfg: ClientConfig, local: Local): Result<(bool, Option<AgentAuth>), string> {
    if cfg.useAgent && local.authSock != "" && local.dialAgent(local.authSock) then
      if cfg.identityFile != "" then
        match FilteredAgentAuth(local, cfg.identityFile)
        case Failure(e) => Failure("filtering agent keys with identity file: " + e)
        case Success(auth) => Success((true, Some(auth)))
      else Success((true, Some(AllAgentKeys)))
    else Success((false, None))
  }

  /** The outcome of NewClient: key set-up and agent set-up, which must not both come up empty. */
  function ClientFor(cfg: ClientConfig, local: Local): Result<Client, string> {
    match KeySigner(cfg, local)
    case Failure(e) => Failure(e)
    case Success(signer) =>
      match AgentSetup(cfg, local)
      case Failure(e) => Failure(e)
      case Success((conn, auth)) =>
        if signer.None? && auth.None? then Failure(NoAuthMethod)
        else Success(Client(cfg.host, cfg.port, cfg.username, signer, conn, auth))
  }

  method NewClient(cfg: ClientConfig, local: Local) returns (r: Result<Client, string>)
    ensures r == ClientFor(cfg, local)
    ensures r.Success? ==> r.value.signer.Some? || r.value.agentAuth.Some?
  {
    var c := Client(cfg.host, cfg.port, cfg.username, None, false, None);
    if cfg.privateKey != "" {
      var signer := local.parsePrivateKey(cfg.privateKey);
      if signer.Failure? {
        return Failure("parsing private key: " + signer.error);
      }
      c := c.(signer := Some(signer.value));
    } else if cfg.privateKeyPath != "" {
      var keyData := local.readFile(cfg.privateKeyPath);
      if keyData.Failure? {
        return Failure("reading private key file " + cfg.privateKeyPath + ": " + keyData.error);
      }
      var signer := local.parsePrivateKey(keyData.value);
      if signer.Failure? {
        return Failure("parsing private key from " + cfg.privateKeyPath + ": " + signer.error);
      }
      c := c.(signer := Some(signer.value));
    }
    if cfg.useAgent {
      var socket := local.authSock;
      if socket != "" {
        if local.dialAgent(socket) {
          c := c.(agentConn := true);
          if cfg.identityFile != "" {
            var auth := FilteredAgentAuth(local, cfg.identityFile);
            if auth.Failure? {
              return Failure("filtering agent keys with identity file: " + auth.error);
            }
            c := c.(agentAuth := Some(auth.value));
          } else {
            c := c.(agentAuth := Some(AllAgentKeys));
          }
        }
      }
    }
    if c.signer.None? && c.agentAuth.None? {
      return Failure(NoAuthMethod);
    }
    return Success(c);
  }

  /** Key contents take precedence: with them, the key file setting is never consulted. */
  lemma KeyContentsFirst(cfg: ClientConfig, local: Local, path: string)
    requires cfg.privateKey != ""
    ensures ClientFor(cfg.(privateKeyPath := path), local) == ClientFor(cfg, local)
  {
  }

  /** A key that does not parse, or a key file that cannot be read, is an error; the agent is not tried. */
  lemma KeyErrorsStop(cfg: ClientConfig, local: Local)
    ensures cfg.privateKey != "" && local.parsePrivateKey(cfg.privateKey).Failure? ==>
      ClientFor(cfg, local) == Failure("parsing private key: " + local.parsePrivateKey(cfg.privateKey).error)
    ensures cfg.privateKey == "" && cfg.privateKeyPath != "" && local.readFile(cfg.privateKeyPath).Failure? ==>
      ClientFor(cfg, local) == Failure("reading private key file " + cfg.privateKeyPath + ": " + local.readFile(cfg.privateKeyPath).error)
    ensures (cfg.privateKey == "" && cfg.privateKeyPath != "" && local.readFile(cfg.privateKeyPath).Success?
             && local.parsePrivateKey(local.readFile(cfg.privateKeyPath).value).Failure?) ==>
      ClientFor(cfg, local).Failure? && Text.HasPrefix(ClientFor(cfg, local).error, "parsing private key from ")
  {
    var e := ClientFor(cfg, local);
    if cfg.privateKey == "" && cfg.privateKeyPath != "" && local.readFile(cfg.privateKeyPath).Success?
      && local.parsePrivateKey(local.readFile(cfg.privateKeyPath).value).Failure? {
      var err := local.parsePrivateKey(local.readFile(cfg.privateKeyPath).value).error;
      assert e.error == "parsing private key from " + (cfg.privateKeyPath + ": " + err);
    }
  }

  /** Whether the agent yields an authentication method. */
  predicate AgentAvailable(cfg: ClientConfig, local: Local) {
    cfg.useAgent && local.authSock != "" && local.dialAgent(local.authSock)
  }

  /**
   * NewClient reports that no method is available exactly when no key is
   * configured and the agent is not requested, unset or unreachable.
   */
  lemma NoAuthExactly(cfg: ClientConfig, local: Local)
    ensures ClientFor(cfg, local) == Failure(NoAuthMethod) <==>
      cfg.privateKey == "" && cfg.privateKeyPath == "" && !AgentAvailable(cfg, local)
  {
    var r := ClientFor(cfg, local);
    assert NoAuthMethod[0] == 'n';
    if cfg.privateKey != "" || cfg.privateKeyPath != "" || AgentAvailable(cfg, local) {
      var ks := KeySigner(cfg, local);
      var ag := AgentSetup(cfg, local);
      if ks.Failure? {
        assert ks.error[0] == 'p' || ks.error[0] == 'r';
        assert r == Failure(ks.error);
      } else if ag.Failure? {
        assert ag.error[0] == 'f';
        assert r == Failure(ag.error);
      } else if cfg.privateKey != "" || cfg.privateKeyPath != "" {
        assert ks.value.Some?;
      } else {
        assert ag.value.1.Some?;
      }
    }
  }

  /** With the agent and no identity file, the agent offers all of its keys. */
  lemma AgentOnly(cfg: ClientConfig, local: Local)
    requires cfg.privateKey == "" && cfg.privateKeyPath == ""
    requires AgentAvailable(cfg, local) && cfg.identityFile == ""
    ensures ClientFor(cfg, local) == Success(Client(cfg.host, cfg.port, cfg.username, None, true, Some(AllAgentKeys)))
  {
  }

  /**
   * The signers an agent method offers when the server asks: all the agent's
   * signers, or only the first whose public key is the wanted one, and an
   * error when there is none.
   */
  method OfferedSigners(auth: AgentAuth, agentSigners: Result<seq<Signer>, string>)
    returns (r: Result<seq<Signer>, string>)
    ensures agentSigners.Failure? ==> r == Failure(agentSigners.error)
    ensures agentSigners.Success? && auth.AllAgentKeys? ==> r == agentSigners
    ensures agentSigners.Success? && auth.MatchingKey? && r.Success? ==>
      exists i :: 0 <= i < |agentSigners.value| && r.value == [agentSigners.value[i]]
        && agentSigners.value[i].publicKey == auth.wantKey
        && forall j :: 0 <= j < i ==> agentSigners.value[j].publicKey != auth.wantKey
    ensures agentSigners.Success? && auth.MatchingKey? && r.Failure? ==>
      r.error == "identity file " + auth.identityFile + ": matching key not found in SSH agent"
      && forall j :: 0 <= j < |agentSigners.value| ==> agentSigners.value[j].publicKey != auth.wantKey
  {
    if agentSigners.Failure? {
      return Failure(agentSigners.error);
    }
    var signers := agentSigners.value;
    if auth.AllAgentKeys? {
      return Success(signers);
    }
    var i := 0;
    while i < |signers|
      invariant 0 <= i <= |signers|
      invariant forall j :: 0 <= j < i ==> signers[j].publicKey != auth.wantKey
    {
      if signers[i].publicKey == auth.wantKey {
        assert [signers[i]] == [agentSigners.value[i]];
        return Success([signers[i]]);
      }
      i := i + 1;
    }
    return Failure("identity file " + auth.identityFile + ": matching key not found in SSH agent");
  }

  /** The methods offered to the server: the explicit key first, then the agent. */
  function AuthMethods(c: Client): (r: seq<AuthMethod>)
    ensures |r| == (if c.signer.Some? then 1 else 0) + (if c.agentAuth.Some? then 1 else 0)
    ensures c.signer.Some? ==> r[0] == PublicKeys(c.signer.value)
    ensures c.agentAuth.Some? ==> r[|r| - 1] == AgentKeys(c.agentAuth.value)
  {
    (if c.signer.Some? then [PublicKeys(c.signer.value)] else [])
    + (if c.agentAuth.Some? then [AgentKeys(c.agentAuth.value)] else [])
  }

  // ---------------------------------------------------------------------
  // Running a command
  // ---------------------------------------------------------------------

  /** host:port, the address dialled. */
  function Addr(c: Client): string {
    c.host + ":" + Text.Itoa(c.port)
  }

  /** Who connects: the user, the address and the methods offered. */
  datatype Session = Session(user: string, addr: string, auth: seq<AuthMethod>)

  function SessionOf(c: Client): Session {
    Session(c.username, Addr(c), AuthMethods(c))
  }

  /** How the server answers one command. */
  datatype Reply =
    | DialFailed(dialError: string)
    | SessionFailed(sessionError: string)
    | Finished(stdout: string, stderr: string, exitError: Option<string>)

  /** What Run returns for a reply: the output without trailing newlines, or the error text. */
  function Outcome(c: Client, command: string, reply: Reply): (r: Result<string, string>)
    ensures r.Success? <==> reply.Finished? && reply.exitError.None?
    ensures r.Success? ==>
      && Text.HasPrefix(reply.stdout, r.value)
      && (forall i :: |r.value| <= i < |reply.stdout| ==> reply.stdout[i] == '\n')
      && (r.value == [] || r.value[|r.value| - 1] != '\n')
    ensures reply.Finished? && reply.exitError.Some? ==>
      r.error == "running command " + Commands.Quote(command) + ": " + Text.TrimSpace(reply.stderr)
        + ": " + reply.exitError.value
  {
    match reply
    case DialFailed(e) => Failure("connecting to " + Addr(c) + ": " + e)
    case SessionFailed(e) => Failure("creating session: " + e)
    case Finished(out, err, exit) =>
      if exit.Some? then
        Failure("running command " + Commands.Quote(command) + ": " + Text.TrimSpace(err) + ": " + exit.value)
      else Success(Text.TrimTrailingNewlines(out))
  }

  type Respond = (Session, seq<string>, string) -> Reply

  /** The Soft Serve server as the client sees it. */
  class Server {
    /** The command lines the client has tried to run, in order, including those whose connection failed. */
    var log: seq<string>
    /** The reply to a command, given who connects and the commands tried before it. */
    const respond: Respond

    constructor(respond: Respond)
      ensures this.respond == respond && log == []
    {
      this.respond := respond;
      log := [];
    }
  }

  /** What running `command` after the commands `history` gives. */
  function Answer(c: Client, respond: Respond, history: seq<string>, command: string): Result<string, string> {
    Outcome(c, command, respond(SessionOf(c), history, command))
  }

  method Run(c: Client, srv: Server, command: string) returns (r: Result<string, string>)
    modifies srv
    ensures srv.log == old(srv.log) + [command]
    ensures r == Answer(c, srv.respond, old(srv.log), command)
  {
    var authMethods: seq<AuthMethod> := [];
    if c.signer.Some? {
      authMethods := authMethods + [PublicKeys(c.signer.value)];
    }
    if c.agentAuth.Some? {
      authMethods := authMethods + [AgentKeys(c.agentAuth.value)];
    }
    var addr := c.host + ":" + Text.Itoa(c.port);
    assert Session(c.username, addr, authMethods) == SessionOf(c);
    var reply := srv.respond(Session(c.username, addr, authMethods), srv.log, command);
    srv.log := srv.log + [command];
    match reply {
      case DialFailed(e) => r := Failure("connecting to " + addr + ": " + e);
      case SessionFailed(e) => r := Failure("creating session: " + e);
      case Finished(out, err, exit) =>
        if exit.Some? {
          r := Failure("running command " + Commands.Quote(command) + ": " + Text.TrimSpace(err) + ": " + exit.value);
        } else {
          r := Success(Text.TrimTrailingNewlines(out));
        }
    }
  }

  // ---------------------------------------------------------------------
  // Client methods
  // ---------------------------------------------------------------------

  /** The error a command that returns nothing reports, if any. */
  function ExecAnswer(c: Client, respond: Respond, history: seq<string>, cmd: Commands.Command): Option<string> {
    var a := Answer(c, respond, history, Commands.Render(cmd));
    if a.Failure? then Some(a.error) else None
  }

  /** Any client method that only sends a command (create, delete, set, add, remove). */
  method Exec(c: Client, srv: Server, cmd: Commands.Command) returns (err: Option<string>)
    modifies srv
    ensures srv.log == old(srv.log) + [Commands.Render(cmd)]
    ensures err == ExecAnswer(c, srv.respond, old(srv.log), cmd)
  {
    var r := Run(c, srv, Commands.Render(cmd));
    if r.Failure? {
      return Some(r.error);
    }
    return None;
  }

  function RepoInfoAnswer(c: Client, respond: Respond, history: seq<string>, name: string)
    : Result<Parser.RepoInfoResult, string>
  {
    match Answer(c, respond, history, Commands.Render(Commands.RepoInfo(name)))
    case Failure(e) => Failure(e)
    case Success(out) => Parser.RepoInfoOf(out)
  }

  method RepoInfo(c: Client, srv: Server, name: string) returns (r: Result<Parser.RepoInfoResult, string>)
    modifies srv
    ensures srv.log == old(srv.log) + [Commands.Render(Commands.RepoInfo(name))]
    ensures r == RepoInfoAnswer(c, srv.respond, old(srv.log), name)
  {
    var output := Run(c, srv, Commands.Render(Commands.RepoInfo(name)));
    if output.Failure? {
      return Failure(output.error);
    }
    r := Parser.ParseRepoInfo(output.value);
  }

  function UserInfoAnswer(c: Client, respond: Respond, history: seq<string>, username: string)
    : Result<Parser.UserInfoResult, string>
  {
    match Answer(c, respond, history, Commands.Render(Commands.UserInfo(username)))
    case Failure(e) => Failure(e)
    case Success(out) => Parser.UserInfoOf(out)
  }

  method UserInfo(c: Client, srv: Server, username: string) returns (r: Result<Parser.UserInfoResult, string>)
    modifies srv
    ensures srv.log == old(srv.log) + [Commands.Render(Commands.UserInfo(username))]
    ensures r == UserInfoAnswer(c, srv.respond, old(srv.log), username)
  {
    var output := Run(c, srv, Commands.Render(Commands.UserInfo(username)));
    if output.Failure? {
      return Failure(output.error);
    }
    r := Parser.ParseUserInfo(output.value);
  }

  function CollabListAnswer(c: Client, respond: Respond, history: seq<string>, repo: string)
    : Result<seq<Parser.CollabEntry>, string>
  {
    match Answer(c, respond, history, Commands.Render(Commands.CollabList(repo)))
    case Failure(e) => Failure(e)
    case Success(out) => Success(Parser.CollabListOf(out))
  }

  method CollabList(c: Client, srv: Server, repo: string) returns (r: Result<seq<Parser.CollabEntry>, string>)
    modifies srv
    ensures srv.log == old(srv.log) + [Commands.Render(Commands.CollabList(repo))]
    ensures r == CollabListAnswer(c, srv.respond, old(srv.log), repo)
  {
    var output := Run(c, srv, Commands.Render(Commands.CollabList(repo)));
    if output.Failure? {
      return Failure(output.error);
    }
    var entries := Parser.ParseCollabList(output.value);
    return Success(entries);
  }

  /** The allow-keyless setting is on exactly when the trimmed reply is `true`. */
  function AllowKeylessAnswer(c: Client, respond: Respond, history: seq<string>): (r: Result<bool, string>)
    ensures var a := Answer(c, respond, history, Commands.Render(Commands.SettingsGetAllowKeyless));
      match a
      case Failure(e) => r == Failure(e)
      case Success(out) => r.Success? && (r.value <==> Text.TrimSpace(out) == "true")
  {
    match Answer(c, respond, history, Commands.Render(Commands.SettingsGetAllowKeyless))
    case Failure(e) => Failure(e)
    case Success(out) => Success(Text.TrimSpace(out) == "true")
  }

  method SettingsGetAllowKeyless(c: Client, srv: Server) returns (r: Result<bool, string>)
    modifies srv
    ensures srv.log == old(srv.log) + [Commands.Render(Commands.SettingsGetAllowKeyless)]
    ensures r == AllowKeylessAnswer(c, srv.respond, old(srv.log))
  {
    var output := Run(c, srv, Commands.Render(Commands.SettingsGetAllowKeyless));
    if output.Failure? {
      return Failure(output.error);
    }
    return Success(Text.TrimSpace(output.value) == "true");
  }

  /**
   * The anonymous access level is the reply with the surrounding white space
   * removed (so it is trimmed); an error is passed on unchanged.
   */
  function AnonAccessAnswer(c: Client, respond: Respond, history: seq<string>): (r: Result<string, string>)
    ensures var a := Answer(c, respond, history, Commands.Render(Commands.SettingsGetAnonAccess));
      match a
      case Failure(e) => r == Failure(e)
      case Success(out) => r == Success(Text.TrimSpace(out)) && Text.Trimmed(r.value)
  {
    match Answer(c, respond, history, Commands.Render(Commands.SettingsGetAnonAccess))
    case Failure(e) => Failure(e)
    case Success(out) => Success(Text.TrimSpace(out))
  }

  method SettingsGetAnonAccess(c: Client, srv: Server) returns (r: Result<string, string>)
    modifies srv
    ensures srv.log == old(srv.log) + [Commands.Render(Commands.SettingsGetAnonAccess)]
    ensures r == AnonAccessAnswer(c, srv.respond, old(srv.log))
  {
    var output := Run(c, srv, Commands.Render(Commands.SettingsGetAnonAccess));
    if output.Failure? {
      return Failure(output.error);
    }
    return Success(Text.TrimSpace(output.value));
  }

  /** Close: only an open agent connection can report an error, the one its closing gives. */
  method Close(c: Client, closeError: Option<string>) returns (err: Option<string>)
    ensures !c.agentConn ==> err == None
    ensures c.agentConn ==> err == closeError
  {
    if c.agentConn {
      return closeError;
    }
    return None;
  }
}
