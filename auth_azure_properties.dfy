/**
  What `Create` promises, stated about `Exchange` (which `Create` is proved to
  perform): the order of its steps, that the first failure ends it, the shape of
  the login payload, and when it returns a Vault token.
 */
module AuthAzureProperties {
  import opened Wrappers
  import Imds
  import opened AuthAzure

  /** Calls that are neither the IMDS fetch nor the Vault write do not leave the host. */
  lemma LocalCallsStayLocal(cs: seq<Call>)
    requires forall k :: 0 <= k < |cs| ==> !cs[k].FetchToken? && !cs[k].Write?
    ensures Outbound(cs) == []
  {
    if Outbound(cs) != [] {
      assert Outbound(cs)[0] in Outbound(cs);
    }
  }

  /** Two runs of calls in step order, the first wholly before step `n` and the second from it on, join in order. */
  lemma JoinInStepOrder(a: seq<Call>, b: seq<Call>, n: nat)
    requires InStepOrder(a) && InStepOrder(b)
    requires forall k :: 0 <= k < |a| ==> Rank(a[k]) < n
    requires forall k :: 0 <= k < |b| ==> n <= Rank(b[k])
    ensures InStepOrder(a + b)
  {
    forall i, j | 0 <= i < j < |a + b|
      ensures Rank((a + b)[i]) < Rank((a + b)[j])
    {
      if j < |a| {
        assert (a + b)[i] == a[i] && (a + b)[j] == a[j];
      } else if i < |a| {
        assert (a + b)[i] == a[i] && (a + b)[j] == b[j - |a|];
      } else {
        assert (a + b)[i] == b[i - |a|] && (a + b)[j] == b[j - |a|];
      }
    }
  }

  /** Each stage of the fixed call sequence, and the whole of it, is in step order. */
  lemma StagesInStepOrder(cfg: AuthOptions, host: Host, w: Call)
    ensures InStepOrder(RoleCalls(cfg))
    ensures InStepOrder(RoleCalls(cfg) + [FetchToken])
    ensures InStepOrder(RoleCalls(cfg) + [FetchToken] + NonceCalls(host))
    ensures w.Write? ==> InStepOrder(RoleCalls(cfg) + [FetchToken] + NonceCalls(host) + [w])
  {
    var a := RoleCalls(cfg);
    var b := a + [FetchToken];
    var c := b + NonceCalls(host);
    JoinInStepOrder(a, [FetchToken], 2);
    JoinInStepOrder(b, NonceCalls(host), 3);
    if w.Write? {
      JoinInStepOrder(c, [w], 5);
    }
  }

  /** Every run makes its calls in the fixed order, each step at most once. */
  lemma CallsInStepOrder(plugin: AzurePlugin, cfg: AuthOptions, host: Host)
    requires LoginReturnsAuth(plugin, cfg, host)
    ensures InStepOrder(Exchange(plugin, cfg, host).calls)
  {
    var r := Exchange(plugin, cfg, host);
    StagesInStepOrder(cfg, host, r.calls[|r.calls| - 1]);
  }

  /** A failed run stops at the step that failed: no call of a later step is made. */
  lemma FailureEndsTheRun(plugin: AzurePlugin, cfg: AuthOptions, host: Host)
    requires LoginReturnsAuth(plugin, cfg, host)
    ensures var r := Exchange(plugin, cfg, host);
      r.err.Some? ==>
        && r.token == ""
        && (forall k :: 0 <= k < |r.calls| ==> Rank(r.calls[k]) <= ErrorRank(r.err.value))
        && (r.err.value != RoleMissing ==> Rank(r.calls[|r.calls| - 1]) == ErrorRank(r.err.value))
  {
  }

  /** Once a config file is named, the environment value plays no part in the role. */
  lemma ConfigFileOverridesEnv(cfg: AuthOptions, host: Host, env: string -> string)
    requires cfg.fileName != ""
    ensures ResolveRole(cfg, host) == ResolveRole(cfg, host.(env := env))
  {
  }

  /** An empty RoleID in a named config file replaces a non-empty environment value. */
  lemma EmptyFileRoleWins(cfg: AuthOptions, host: Host)
    requires cfg.fileName != "" && host.readConfigFile(cfg.fileName, cfg.fileFormat) == Ok(AuthFile(""))
    ensures ResolveRole(cfg, host) == Ok("")
  {
  }

  /** A config file that cannot be read ends the run at once with its error. */
  lemma ConfigReadErrorReturned(plugin: AzurePlugin, cfg: AuthOptions, host: Host)
    requires LoginReturnsAuth(plugin, cfg, host)
    requires cfg.fileName != "" && host.readConfigFile(cfg.fileName, cfg.fileFormat).Err?
    ensures Exchange(plugin, cfg, host)
            == Run("", Some(ConfigFileError(host.readConfigFile(cfg.fileName, cfg.fileFormat).error)),
                   [GetEnv(RoleEnvVar), ReadConfigFile(cfg.fileName, cfg.fileFormat)])
  {
  }

  /** An empty role fails with "role must be provided" before any token fetch, nonce read or login. */
  lemma EmptyRoleFailsFast(plugin: AzurePlugin, cfg: AuthOptions, host: Host)
    requires LoginReturnsAuth(plugin, cfg, host)
    requires ResolveRole(cfg, host) == Ok("")
    ensures var r := Exchange(plugin, cfg, host);
      && r == Run("", Some(RoleMissing), RoleCalls(cfg))
      && Message(r.err.value) == "role must be provided"
      && Outbound(r.calls) == []
  {
    LocalCallsStayLocal(RoleCalls(cfg));
  }

  /** A failed token fetch ends the run right after the fetch. */
  lemma TokenFetchErrorReturned(plugin: AzurePlugin, cfg: AuthOptions, host: Host)
    requires LoginReturnsAuth(plugin, cfg, host)
    requires ResolveRole(cfg, host).Ok? && ResolveRole(cfg, host).value != ""
    requires Imds.GetAzureManagedIdentityToken(host.imds).Err?
    ensures Exchange(plugin, cfg, host)
            == Run("", Some(TokenError(Imds.GetAzureManagedIdentityToken(host.imds).error)), RoleCalls(cfg) + [FetchToken])
  {
  }

  /** A named nonce file that cannot be read fails the run after the token fetch and before any login. */
  lemma NonceReadErrorStopsBeforeLogin(plugin: AzurePlugin, cfg: AuthOptions, host: Host)
    requires LoginReturnsAuth(plugin, cfg, host)
    requires ResolveRole(cfg, host).Ok? && ResolveRole(cfg, host).value != ""
    requires Imds.GetAzureManagedIdentityToken(host.imds).Ok?
    requires host.env(NonceEnvVar) != "" && host.readFile(host.env(NonceEnvVar)).Err?
    ensures var r := Exchange(plugin, cfg, host);
      && r.err == Some(NonceFileError(host.readFile(host.env(NonceEnvVar)).error))
      && r.token == ""
      && FetchToken in r.calls
      && r.calls[|r.calls| - 1] == ReadFile(host.env(NonceEnvVar))
      && forall k :: 0 <= k < |r.calls| ==> !r.calls[k].Write?
  {
  }

  /** With no nonce file named, no file is read and the nonce cannot fail the run. */
  lemma UnsetNonceFileIsNoError(plugin: AzurePlugin, cfg: AuthOptions, host: Host)
    requires LoginReturnsAuth(plugin, cfg, host)
    requires host.env(NonceEnvVar) == ""
    ensures var r := Exchange(plugin, cfg, host);
      && (r.err.Some? ==> !r.err.value.NonceFileError?)
      && forall k :: 0 <= k < |r.calls| ==> !r.calls[k].ReadFile?
  {
  }

  /**
    The one login request a run makes goes to the Azure login path with a payload of
    `role` (the resolved, non-empty role), `jwt` (the fetched token) and, exactly when
    a named nonce file was read and is non-empty, `nonce` (its content); nothing else.
   */
  lemma PayloadSent(plugin: AzurePlugin, cfg: AuthOptions, host: Host, k: nat)
    requires LoginReturnsAuth(plugin, cfg, host)
    requires k < |Exchange(plugin, cfg, host).calls| && Exchange(plugin, cfg, host).calls[k].Write?
    ensures ResolveRole(cfg, host).Ok? && ResolveRole(cfg, host).value != ""
    ensures Imds.GetAzureManagedIdentityToken(host.imds).Ok?
    ensures var w := Exchange(plugin, cfg, host).calls[k];
      var nonceRead := host.readFile(host.env(NonceEnvVar));
      && k == |Exchange(plugin, cfg, host).calls| - 1
      && SentPayload(cfg, host) == Some(w.payload)
      && w.path == LoginPath
      && {RoleKey, JwtKey} <= w.payload.Keys <= {RoleKey, JwtKey, NonceKey}
      && w.payload[RoleKey] == ResolveRole(cfg, host).value
      && w.payload[JwtKey] == Imds.GetAzureManagedIdentityToken(host.imds).value
      && (NonceKey in w.payload <==> host.env(NonceEnvVar) != "" && nonceRead.Ok? && nonceRead.value != "")
      && (NonceKey in w.payload ==> w.payload[NonceKey] == nonceRead.value && w.payload[NonceKey] != "")
  {
  }

  /** After the login request, the run returns the response's client token, or the login error and no token. */
  lemma LoginOutcome(plugin: AzurePlugin, cfg: AuthOptions, host: Host)
    requires LoginReturnsAuth(plugin, cfg, host)
    requires Exchange(plugin, cfg, host).calls[|Exchange(plugin, cfg, host).calls| - 1].Write?
    ensures var r := Exchange(plugin, cfg, host);
      var resp := plugin.client.write(LoginPath, r.calls[|r.calls| - 1].payload);
      && (resp.Ok? ==> r.err.None? && r.token == resp.value.auth.value.clientToken)
      && (resp.Err? ==> r.err == Some(LoginError(resp.error)) && r.token == "")
  {
  }

  /** A run succeeds exactly when every step succeeds and the role is non-empty. */
  lemma SucceedsExactlyWhen(plugin: AzurePlugin, cfg: AuthOptions, host: Host)
    requires LoginReturnsAuth(plugin, cfg, host)
    ensures var role := ResolveRole(cfg, host);
      var jwt := Imds.GetAzureManagedIdentityToken(host.imds);
      var nonce := ReadNonce(host);
      Exchange(plugin, cfg, host).err.None? <==>
        && role.Ok? && role.value != ""
        && jwt.Ok?
        && nonce.Ok?
        && plugin.client.write(LoginPath, LoginPayload(role.value, jwt.value, nonce.value)).Ok?
  {
  }

  /** A successful run makes every call of every step: role, fetch, nonce, then the login. */
  lemma SuccessfulRunCalls(plugin: AzurePlugin, cfg: AuthOptions, host: Host)
    requires LoginReturnsAuth(plugin, cfg, host)
    requires Exchange(plugin, cfg, host).err.None?
    ensures var r := Exchange(plugin, cfg, host);
      && r.calls == RoleCalls(cfg) + [FetchToken] + NonceCalls(host) + [r.calls[|r.calls| - 1]]
      && r.calls[|r.calls| - 1].Write?
  {
  }

  /** Local calls around the fetch and the write add nothing to what leaves the host. */
  lemma OutboundAroundLocalCalls(a: seq<Call>, b: seq<Call>, w: Call)
    requires forall k :: 0 <= k < |a| ==> !a[k].FetchToken? && !a[k].Write?
    requires forall k :: 0 <= k < |b| ==> !b[k].FetchToken? && !b[k].Write?
    requires w.Write?
    ensures Outbound(a + [FetchToken] + b + [w]) == [FetchToken, w]
  {
    var x := a + [FetchToken];
    var y := x + b;
    OutboundAppend(y, [w]);
    OutboundAppend(x, b);
    OutboundAppend(a, [FetchToken]);
    LocalCallsStayLocal(a);
    LocalCallsStayLocal(b);
    OutboundSingle(FetchToken);
    OutboundSingle(w);
  }

  lemma OutboundSingle(c: Call)
    requires c.FetchToken? || c.Write?
    ensures Outbound([c]) == [c]
  {
    assert [c][1..] == [];
  }

  /** A successful run leaves the host exactly twice: the IMDS fetch, then the Vault login. */
  lemma SuccessMakesTwoOutboundCalls(plugin: AzurePlugin, cfg: AuthOptions, host: Host)
    requires LoginReturnsAuth(plugin, cfg, host)
    requires Exchange(plugin, cfg, host).err.None?
    ensures var r := Exchange(plugin, cfg, host);
      Outbound(r.calls) == [FetchToken, r.calls[|r.calls| - 1]] && r.calls[|r.calls| - 1].Write?
  {
    var r := Exchange(plugin, cfg, host);
    SuccessfulRunCalls(plugin, cfg, host);
    OutboundAroundLocalCalls(RoleCalls(cfg), NonceCalls(host), r.calls[|r.calls| - 1]);
  }

  /**
    A host with the role `web` in the environment, no nonce file, and an IMDS body
    `{"access_token": token}`.
   */
  function ExampleHost(token: string): Host
  {
    Host(
      n => if n == RoleEnvVar then "web" else "",
      (f, fmt) => Err("no config file"),
      f => Err("no such file"),
      Ok(Imds.HttpResponse(200, Ok(Ok(Imds.Object([Imds.Member(Imds.AccessTokenKey, Imds.String(token))]))))))
  }

  /** A Vault client whose every login returns an `Auth` block with this client token. */
  function ExamplePlugin(clientToken: string): AzurePlugin
  {
    AzurePlugin(Client((path, p) => Ok(Secret(Some(SecretAuth(clientToken))))))
  }

  /**
    The login request can carry an empty `jwt`: an IMDS body whose `access_token` is the
    empty string passes the parse, and nothing later checks the token.
   */
  lemma EmptyJwtCanBeSent()
    ensures Exchange(ExamplePlugin("vault-token"), AuthOptions("", ""), ExampleHost(""))
            == Run("vault-token", None, [GetEnv(RoleEnvVar), FetchToken, GetEnv(NonceEnvVar),
                                         Write(LoginPath, map[RoleKey := "web", JwtKey := ""])])
  {
  }

  /**
    A Vault response whose `Auth` block has an empty client token is a success that
    returns the empty token: nothing checks the token before it is returned.
   */
  lemma EmptyClientTokenIsSuccess()
    ensures Exchange(ExamplePlugin(""), AuthOptions("", ""), ExampleHost("jwt"))
            == Run("", None, [GetEnv(RoleEnvVar), FetchToken, GetEnv(NonceEnvVar),
                              Write(LoginPath, map[RoleKey := "web", JwtKey := "jwt"])])
  {
  }

  /**
    A run that stops before the login needs nothing of the Vault client: the
    precondition holds for every client, one that never returns `Auth` included.
   */
  lemma EarlyStopNeedsNoAuth(plugin: AzurePlugin, cfg: AuthOptions, host: Host)
    requires SentPayload(cfg, host).None?
    ensures LoginReturnsAuth(plugin, cfg, host)
    ensures LoginReturnsAuth(AzurePlugin(Client((path, p) => Ok(Secret(None)))), cfg, host)
  {
  }

  /** A run sends a login exactly when `SentPayload` has one. */
  lemma LoginSentExactlyWhenPayload(plugin: AzurePlugin, cfg: AuthOptions, host: Host)
    requires LoginReturnsAuth(plugin, cfg, host)
    ensures var r := Exchange(plugin, cfg, host);
      var sent := SentPayload(cfg, host);
      && (sent.Some? ==> r.calls[|r.calls| - 1] == Write(LoginPath, sent.value))
      && (sent.None? ==> forall k :: 0 <= k < |r.calls| ==> !r.calls[k].Write?)
  {
  }
}
