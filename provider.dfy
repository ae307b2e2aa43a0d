/**
 * The provider: resolving the connection settings from the provider block,
 * the environment and the local user, creating the SSH client from them, and
 * the resource types it offers.
 */
module Provider {
  import opened Wrappers
  import Text
  import Ssh
  import opened Reconcile

  /** The provider block; the port is a 64-bit integer. */
  datatype ProviderModel = ProviderModel(
    host: Value<string>,
    port: Value<int>,
    username: Value<string>,
    privateKeyPath: Value<string>,
    identityFile: Value<string>,
    useAgent: Value<bool>)

  /**
   * What Configure reads from the machine: the environment, the current OS
   * user's name (none when it cannot be looked up) and the home directory
   * (none when it cannot be determined).
   */
  datatype Machine = Machine(env: map<string, string>, osUser: Option<string>, home: Option<string>)

  /** os.Getenv: an unset variable reads as "". */
  function Getenv(m: Machine, name: string): string {
    if name in m.env then m.env[name] else ""
  }

  const DefaultHost := "localhost"
  const DefaultPort := 23231

  /** ValueInt64: the number, or 0 when null or unknown. */
  function Int64Of(v: Value<int>): int {
    if v.Known? then v.value else 0
  }

  // ---------------------------------------------------------------------
  // Each setting, highest priority first
  // ---------------------------------------------------------------------

  /** A provider block that sets the host (even to an unknown value) wins; then SOFT_SERVE_HOST; then localhost. */
  function HostOf(config: ProviderModel, m: Machine): string {
    if !config.host.Null? then StringOf(config.host)
    else if Getenv(m, "SOFT_SERVE_HOST") != "" then Getenv(m, "SOFT_SERVE_HOST")
    else DefaultHost
  }

  /** The block's port; then SOFT_SERVE_PORT when it parses as an integer; then 23231. */
  function PortOf(config: ProviderModel, m: Machine): int {
    if !config.port.Null? then Int64Of(config.port)
    else match Text.Atoi(Getenv(m, "SOFT_SERVE_PORT"))
      case Some(p) => p
      case None => DefaultPort
  }

  /** The block's username; then SOFT_SERVE_USER; then the OS user; then "". */
  function UsernameOf(config: ProviderModel, m: Machine): string {
    if !config.username.Null? then StringOf(config.username)
    else if Getenv(m, "SOFT_SERVE_USER") != "" then Getenv(m, "SOFT_SERVE_USER")
    else if m.osUser.Some? then m.osUser.value
    else ""
  }

  /** A leading `~/` stands for the home directory, when there is one. */
  function ExpandHome(path: string, home: Option<string>): (r: string)
    ensures !Text.HasPrefix(path, "~/") || home.None? ==> r == path
    ensures Text.HasPrefix(path, "~/") && home.Some? ==> r == home.value + "/" + path[2..]
  {
    if Text.HasPrefix(path, "~/") && home.Some? then home.value + path[1..] else path
  }

  /** Only a key file named in the block is used, with `~/` expanded. */
  function PrivateKeyPathOf(config: ProviderModel, m: Machine): string {
    if !config.privateKeyPath.Null? then ExpandHome(StringOf(config.privateKeyPath), m.home) else ""
  }

  /** The block's identity file, else SOFT_SERVE_IDENTITY_FILE, with `~/` expanded in either case. */
  function IdentityFileOf(config: ProviderModel, m: Machine): string {
    ExpandHome(if !config.identityFile.Null? then StringOf(config.identityFile)
               else Getenv(m, "SOFT_SERVE_IDENTITY_FILE"), m.home)
  }

  /** The block's flag; then a set SOFT_SERVE_USE_AGENT, on only for `true` or `1`; then on. */
  function UseAgentOf(config: ProviderModel, m: Machine): bool {
    if !config.useAgent.Null? then BoolOf(config.useAgent)
    else if Getenv(m, "SOFT_SERVE_USE_AGENT") != "" then Getenv(m, "SOFT_SERVE_USE_AGENT") in {"true", "1"}
    else true
  }

  /** The client configuration Configure builds; the key contents come only from SOFT_SERVE_PRIVATE_KEY. */
  function Resolve(config: ProviderModel, m: Machine): Ssh.ClientConfig {
    Ssh.ClientConfig(
      HostOf(config, m), PortOf(config, m), UsernameOf(config, m),
      Getenv(m, "SOFT_SERVE_PRIVATE_KEY"), PrivateKeyPathOf(config, m),
      UseAgentOf(config, m), IdentityFileOf(config, m))
  }

  // ---------------------------------------------------------------------
  // Configure
  // ---------------------------------------------------------------------

  /**
   * The resolution steps of Configure: each setting starts at its default
   * and is overridden by the environment, then by the provider block.
   */
  method ResolveConfig(config: ProviderModel, m: Machine) returns (cfg: Ssh.ClientConfig)
    ensures cfg == Resolve(config, m)
  {
    var host := "localhost";
    var envHost := Getenv(m, "SOFT_SERVE_HOST");
    if envHost != "" {
      host := envHost;
    }
    if !config.host.Null? {
      host := StringOf(config.host);
    }
    assert host == HostOf(config, m);

    var port := 23231;
    var envPort := Getenv(m, "SOFT_SERVE_PORT");
    if envPort != "" {
      var p := Text.Atoi(envPort);
      if p.Some? {
        port := p.value;
      }
    }
    if !config.port.Null? {
      port := Int64Of(config.port);
    }
    assert port == PortOf(config, m);

    var username := "";
    if m.osUser.Some? {
      username := m.osUser.value;
    }
    var envUser := Getenv(m, "SOFT_SERVE_USER");
    if envUser != "" {
      username := envUser;
    }
    if !config.username.Null? {
      username := StringOf(config.username);
    }
    assert username == UsernameOf(config, m);

    var privateKey := Getenv(m, "SOFT_SERVE_PRIVATE_KEY");

    var privateKeyPath := "";
    if !config.privateKeyPath.Null? {
      privateKeyPath := StringOf(config.privateKeyPath);
      if Text.HasPrefix(privateKeyPath, "~/") && m.home.Some? {
        privateKeyPath := m.home.value + privateKeyPath[1..];
      }
    }
    assert privateKeyPath == PrivateKeyPathOf(config, m);

    var identityFile := Getenv(m, "SOFT_SERVE_IDENTITY_FILE");
    if !config.identityFile.Null? {
      identityFile := StringOf(config.identityFile);
    }
    if Text.HasPrefix(identityFile, "~/") && m.home.Some? {
      identityFile := m.home.value + identityFile[1..];
    }
    assert identityFile == IdentityFileOf(config, m);

    var useAgent := true;
    var envAgent := Getenv(m, "SOFT_SERVE_USE_AGENT");
    if envAgent != "" {
      useAgent := envAgent == "true" || envAgent == "1";
    }
    if !config.useAgent.Null? {
      useAgent := BoolOf(config.useAgent);
    }
    assert useAgent == UseAgentOf(config, m);

    cfg := Ssh.ClientConfig(host, port, username, privateKey, privateKeyPath, useAgent, identityFile);
  }

  /** An error reported against one attribute of the provider block. */
  datatype AttributeDiag = AttributeDiag(attribute: string, diag: Diag)

  /**
   * Configure: the client created from the resolved settings, or NewClient's
   * error reported against `host`.
   */
  method Configure(config: ProviderModel, m: Machine, local: Ssh.Local) returns (r: Result<Ssh.Client, AttributeDiag>)
    ensures var made := Ssh.ClientFor(Resolve(config, m), local);
      && (r.Success? <==> made.Success?)
      && (r.Success? ==> r.value == made.value)
      && (r.Failure? ==> r.error == AttributeDiag("host", Diag("Unable to create Soft Serve SSH client", made.error)))
  {
    var cfg := ResolveConfig(config, m);
    var client := Ssh.NewClient(cfg, local);
    if client.Failure? {
      return Failure(AttributeDiag("host", Diag("Unable to create Soft Serve SSH client", client.error)));
    }
    return Success(client.value);
  }

  // ---------------------------------------------------------------------
  // What the resolution promises
  // ---------------------------------------------------------------------

  /**
   * Every setting the block gives decides that setting whatever the
   * environment and the OS user say; the key contents never come from the
   * block.
   */
  lemma BlockWins(config: ProviderModel, m1: Machine, m2: Machine)
    requires m1.home == m2.home
    ensures var a := Resolve(config, m1);
      var b := Resolve(config, m2);
      && (config.host.Known? ==> a.host == b.host == config.host.value)
      && (config.port.Known? ==> a.port == b.port == config.port.value)
      && (config.username.Known? ==> a.username == b.username == config.username.value)
      && (config.useAgent.Known? ==> a.useAgent == b.useAgent == config.useAgent.value)
      && (!config.privateKeyPath.Null? ==> a.privateKeyPath == b.privateKeyPath)
      && (!config.identityFile.Null? ==> a.identityFile == b.identityFile)
  {
  }

  /** The private key contents are SOFT_SERVE_PRIVATE_KEY, whatever the block says. */
  lemma PrivateKeyFromEnvironment(a: ProviderModel, b: ProviderModel, m: Machine)
    ensures Resolve(a, m).privateKey == Resolve(b, m).privateKey == Getenv(m, "SOFT_SERVE_PRIVATE_KEY")
  {
  }

  /**
   * Without a port in the block, SOFT_SERVE_PORT holding a 64-bit integer in
   * decimal gives that port; a value that does not parse is ignored.
   */
  lemma PortFromEnvironment(config: ProviderModel, m: Machine, n: int)
    requires config.port.Null?
    requires Text.MinInt64 <= n <= Text.MaxInt64
    ensures Getenv(m, "SOFT_SERVE_PORT") == Text.Itoa(n) ==> PortOf(config, m) == n
    ensures Text.Atoi(Getenv(m, "SOFT_SERVE_PORT")).None? ==> PortOf(config, m) == DefaultPort
  {
    if Getenv(m, "SOFT_SERVE_PORT") == Text.Itoa(n) {
      Text.AtoiItoa(n);
    }
  }

  /** With neither block nor environment, the defaults: localhost, 23231, the agent on, no key. */
  lemma Defaults(m: Machine)
    requires m.env == map[]
    ensures var cfg := Resolve(ProviderModel(Null, Null, Null, Null, Null, Null), m);
      && cfg.host == DefaultHost && cfg.port == DefaultPort && cfg.useAgent
      && cfg.privateKey == "" && cfg.privateKeyPath == "" && cfg.identityFile == ""
      && cfg.username == (if m.osUser.Some? then m.osUser.value else "")
  {
  }

  /** Without a block flag, a set SOFT_SERVE_USE_AGENT turns the agent on exactly for `true` and `1`. */
  lemma UseAgentFromEnvironment(config: ProviderModel, m: Machine)
    requires config.useAgent.Null? && Getenv(m, "SOFT_SERVE_USE_AGENT") != ""
    ensures UseAgentOf(config, m) <==> Getenv(m, "SOFT_SERVE_USE_AGENT") == "true" || Getenv(m, "SOFT_SERVE_USE_AGENT") == "1"
  {
  }

  /**
   * Expansion happens once: when the home directory does not itself start
   * with `~`, an expanded path is left alone by a second expansion.
   */
  lemma {:induction false} ExpandHomeOnce(path: string, home: Option<string>)
    requires home.Some? ==> !Text.HasPrefix(home.value, "~")
    ensures ExpandHome(ExpandHome(path, home), home) == ExpandHome(path, home)
  {
    var once := ExpandHome(path, home);
    if Text.HasPrefix(path, "~/") && home.Some? {
      assert once == home.value + path[1..];
      assert path[1] == '/';
      if home.value == "" {
        assert once[0] == '/';
      } else {
        assert once[0] == home.value[0] && home.value[0] != '~';
      }
      assert !Text.HasPrefix(once, "~/");
    }
  }

  // ---------------------------------------------------------------------
  // Metadata and Resources
  // ---------------------------------------------------------------------

  /** The provider's type name, which prefixes every resource type. */
  const TypeName := "softserve"

  /** The type names of the resources Resources lists, in order. */
  function Resources(): (r: seq<string>)
    ensures |r| == 4
    ensures forall i, j :: 0 <= i < j < |r| ==> r[i] != r[j]
    ensures forall i :: 0 <= i < |r| ==> Text.HasPrefix(r[i], TypeName + "_")
  {
    [TypeName + "_repository", TypeName + "_user",
     TypeName + "_repository_collaborator", TypeName + "_server_settings"]
  }
}
