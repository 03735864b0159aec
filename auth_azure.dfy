/**
  The Azure auth plugin's `Create`: resolve the Vault role, fetch an identity token
  from IMDS, build the Azure login payload (with the optional nonce) and exchange it
  at Vault for a client token.

  Every I/O result is an input: the process environment, the config-file reader and
  the file reader are functions in `Host`, the IMDS GET is its outcome, and the Vault
  client is the `write` oracle of `Client`. Each run records the I/O calls it makes, in
  order, so that what is attempted and what is skipped can be stated.
 */
module AuthAzure {
  import opened Wrappers
  import Imds

  const RoleEnvVar := "VAULT_SIDEKICK_ROLE_ID"
  const NonceEnvVar := "VAULT_SIDEKICK_NONCE_FILE"
  const LoginPath := "auth/azure/login"

  const RoleKey := "role"
  const JwtKey := "jwt"
  const NonceKey := "nonce"

  /** The body of the Vault login request. */
  type Payload = map<string, string>

  /** The two fields of the auth options that this plugin reads. */
  datatype AuthOptions = AuthOptions(fileName: string, fileFormat: string)

  /** The part of a decoded config file that this plugin reads. */
  datatype AuthFile = AuthFile(roleId: string)

  /** The Vault login response: its `Auth` block may be absent. */
  datatype SecretAuth = SecretAuth(clientToken: string)
  datatype Secret = Secret(auth: Option<SecretAuth>)

  /** The Vault client: a logical write of a payload at a path. */
  datatype Client = Client(write: (string, Payload) -> Result<Secret, string>)

  /** The plugin holds nothing but its Vault client. */
  datatype AzurePlugin = AzurePlugin(client: Client)

  /** The outcomes of everything outside the plugin that `Create` consults. */
  datatype Host = Host(
    env: string -> string,                                  // environment lookup, "" when unset
    readConfigFile: (string, string) -> Result<AuthFile, string>,  // config file by name and format
    readFile: string -> Result<string, string>,             // whole-file read
    imds: Result<Imds.HttpResponse, string>)                // the single IMDS GET

  /** How `Create` fails, one kind per step. */
  datatype Error =
    | ConfigFileError(detail: string)
    | RoleMissing
    | TokenError(cause: Imds.FetchError)
    | NonceFileError(detail: string)
    | LoginError(detail: string)

  /** The Go error text of each failure. */
  function Message(e: Error): string
  {
    match e
    case ConfigFileError(d) => d
    case RoleMissing => "role must be provided"
    case TokenError(c) => Imds.Message(c)
    case NonceFileError(d) => d
    case LoginError(d) => d
  }

  /** An I/O call made by `Create`. */
  datatype Call =
    | GetEnv(name: string)
    | ReadConfigFile(file: string, format: string)
    | FetchToken
    | ReadFile(path: string)
    | Write(path: string, payload: Payload)

  /** What a run of `Create` returns, and the calls it made. */
  datatype Run = Run(token: string, err: Option<Error>, calls: seq<Call>)

  /** Position of each call in the fixed sequence of steps. */
  function Rank(c: Call): nat
  {
    match c
    case GetEnv(n) => if n == NonceEnvVar then 3 else 0
    case ReadConfigFile(_, _) => 1
    case FetchToken => 2
    case ReadFile(_) => 4
    case Write(_, _) => 5
  }

  /** The step at which each failure is decided. */
  function ErrorRank(e: Error): nat
  {
    match e
    case ConfigFileError(_) => 1
    case RoleMissing => 1
    case TokenError(_) => 2
    case NonceFileError(_) => 4
    case LoginError(_) => 5
  }

  /** Calls come in step order, each step at most once. */
  predicate InStepOrder(cs: seq<Call>)
  {
    forall i, j :: 0 <= i < j < |cs| ==> Rank(cs[i]) < Rank(cs[j])
  }

  /** The calls that leave the host: the IMDS GET and the Vault write. */
  function Outbound(cs: seq<Call>): (r: seq<Call>)
    ensures forall c :: c in r ==> c in cs && (c.FetchToken? || c.Write?)
  {
    if cs == [] then []
    else (if cs[0].FetchToken? || cs[0].Write? then [cs[0]] else []) + Outbound(cs[1..])
  }

  lemma {:induction false} OutboundAppend(a: seq<Call>, b: seq<Call>)
    ensures Outbound(a + b) == Outbound(a) + Outbound(b)
  {
    if a == [] {
      assert a + b == b;
    } else {
      assert (a + b)[1..] == a[1..] + b;
      OutboundAppend(a[1..], b);
    }
  }

  /** The calls that resolve the role: the environment lookup, then the config file when one is named. */
  function RoleCalls(cfg: AuthOptions): (cs: seq<Call>)
    ensures |cs| == (if cfg.fileName == "" then 1 else 2) && cs[0] == GetEnv(RoleEnvVar)
    ensures forall c :: c in cs ==> Rank(c) <= 1
  {
    [GetEnv(RoleEnvVar)] + if cfg.fileName != "" then [ReadConfigFile(cfg.fileName, cfg.fileFormat)] else []
  }

  /**
    The role: the config file's RoleID when a file is named (replacing the environment
    value, even by an empty RoleID), otherwise the environment value.
   */
  function ResolveRole(cfg: AuthOptions, host: Host): (r: Result<string, Error>)
    ensures cfg.fileName == "" ==> r == Ok(host.env(RoleEnvVar))
    ensures var read := host.readConfigFile(cfg.fileName, cfg.fileFormat);
      cfg.fileName != "" ==> r == if read.Ok? then Ok(read.value.roleId) else Err(ConfigFileError(read.error))
  {
    if cfg.fileName == "" then Ok(host.env(RoleEnvVar))
    else
      match host.readConfigFile(cfg.fileName, cfg.fileFormat)
      case Err(e) => Err(ConfigFileError(e))
      case Ok(content) => Ok(content.roleId)
  }

  /** The calls that read the nonce: the environment lookup, then the file when one is named. */
  function NonceCalls(host: Host): seq<Call>
  {
    [GetEnv(NonceEnvVar)] + if host.env(NonceEnvVar) != "" then [ReadFile(host.env(NonceEnvVar))] else []
  }

  /**
    The nonce: none when no file is named or the file is empty, the file's content
    otherwise; a failed read of a named file is an error.
   */
  function ReadNonce(host: Host): (r: Result<Option<string>, Error>)
    ensures r.Err? <==> host.env(NonceEnvVar) != "" && host.readFile(host.env(NonceEnvVar)).Err?
    ensures r.Err? ==> r.error == NonceFileError(host.readFile(host.env(NonceEnvVar)).error)
    ensures r.Ok? && r.value.Some? <==>
              host.env(NonceEnvVar) != "" && host.readFile(host.env(NonceEnvVar)).Ok?
              && host.readFile(host.env(NonceEnvVar)).value != ""
    ensures r.Ok? && r.value.Some? ==> r.value.value == host.readFile(host.env(NonceEnvVar)).value && r.value.value != ""
  {
    var nonceFile := host.env(NonceEnvVar);
    if nonceFile == "" then Ok(None)
    else
      match host.readFile(nonceFile)
      case Err(e) => Err(NonceFileError(e))
      case Ok(content) => if content != "" then Ok(Some(content)) else Ok(None)
  }

  /** The login payload: `role` and `jwt` always, `nonce` exactly when there is one, nothing else. */
  function LoginPayload(role: string, jwt: string, nonce: Option<string>): (p: Payload)
    ensures p.Keys == {RoleKey, JwtKey} + (if nonce.Some? then {NonceKey} else {})
    ensures p[RoleKey] == role && p[JwtKey] == jwt
    ensures nonce.Some? ==> p[NonceKey] == nonce.value
  {
    var payload := map[RoleKey := role, JwtKey := jwt];
    if nonce.Some? then payload[NonceKey := nonce.value] else payload
  }

  /** The payload a run sends to Vault, or none when it stops before the login. */
  function SentPayload(cfg: AuthOptions, host: Host): Option<Payload>
  {
    match ResolveRole(cfg, host)
    case Err(_) => None
    case Ok(role) =>
      if role == "" then None
      else
        match Imds.GetAzureManagedIdentityToken(host.imds)
        case Err(_) => None
        case Ok(jwt) =>
          match ReadNonce(host)
          case Err(_) => None
          case Ok(nonce) => Some(LoginPayload(role, jwt, nonce))
  }

  /**
    The login the run sends, if it sends one and it succeeds, comes back with an `Auth`
    block. Go dereferences that block unchecked; a run where it is missing would panic.
   */
  predicate LoginReturnsAuth(plugin: AzurePlugin, cfg: AuthOptions, host: Host)
  {
    var p := SentPayload(cfg, host);
    p.Some? && plugin.client.write(LoginPath, p.value).Ok? ==> plugin.client.write(LoginPath, p.value).value.auth.Some?
  }

  /**
    The whole exchange: each step runs only when every earlier one succeeded, and the
    first failure ends the run with that error and an empty token.
   */
  function Exchange(plugin: AzurePlugin, cfg: AuthOptions, host: Host): (r: Run)
    requires LoginReturnsAuth(plugin, cfg, host)
    ensures r.err.Some? ==> r.token == ""
    ensures |r.calls| > 0 && r.calls[0] == GetEnv(RoleEnvVar)
  {
    var c1 := RoleCalls(cfg);
    match ResolveRole(cfg, host)
    case Err(e) => Run("", Some(e), c1)
    case Ok(role) =>
      if role == "" then Run("", Some(RoleMissing), c1)
      else
        var c2 := c1 + [FetchToken];
        match Imds.GetAzureManagedIdentityToken(host.imds)
        case Err(e) => Run("", Some(TokenError(e)), c2)
        case Ok(jwt) =>
          var c3 := c2 + NonceCalls(host);
          match ReadNonce(host)
          case Err(e) => Run("", Some(e), c3)
          case Ok(nonce) =>
            var payload := LoginPayload(role, jwt, nonce);
            var c4 := c3 + [Write(LoginPath, payload)];
            match plugin.client.write(LoginPath, payload)
            case Err(e) => Run("", Some(LoginError(e)), c4)
            case Ok(secret) => Run(secret.auth.value.clientToken, None, c4)
  }

  /** Create, step by step as the plugin runs it, proved to perform `Exchange`. */
  method Create(plugin: AzurePlugin, cfg: AuthOptions, host: Host) returns (token: string, err: Option<Error>, calls: seq<Call>)
    requires LoginReturnsAuth(plugin, cfg, host)
    ensures Run(token, err, calls) == Exchange(plugin, cfg, host)
    ensures err.Some? ==> token == ""
  {
    calls := [GetEnv(RoleEnvVar)];
    var role := host.env(RoleEnvVar);
    if cfg.fileName != "" {
      calls := calls + [ReadConfigFile(cfg.fileName, cfg.fileFormat)];
      var content := host.readConfigFile(cfg.fileName, cfg.fileFormat);
      if content.Err? {
        return "", Some(ConfigFileError(content.error)), calls;
      }
      role := content.value.roleId;
    }

    if role == "" {
      return "", Some(RoleMissing), calls;
    }

    calls := calls + [FetchToken];
    var jwt := Imds.GetAzureManagedIdentityToken(host.imds);
    if jwt.Err? {
      return "", Some(TokenError(jwt.error)), calls;
    }

    var payload: Payload := map[RoleKey := role, JwtKey := jwt.value];

    calls := calls + [GetEnv(NonceEnvVar)];
    var nonceFile := host.env(NonceEnvVar);
    if nonceFile != "" {
      calls := calls + [ReadFile(nonceFile)];
      var nonce := host.readFile(nonceFile);
      if nonce.Err? {
        return "", Some(NonceFileError(nonce.error)), calls;
      }
      if nonce.value != "" {
        payload := payload[NonceKey := nonce.value];
      }
    }

    calls := calls + [Write(LoginPath, payload)];
    var resp := plugin.client.write(LoginPath, payload);
    if resp.Err? {
      return "", Some(LoginError(resp.error)), calls;
    }
    return resp.value.auth.value.clientToken, None, calls;
  }
}
