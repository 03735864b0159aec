# Azure auth plugin of vault-sidekick, modelled in Dafny

This project models the Azure authentication plugin of vault-sidekick. `Create` resolves a
Vault role. It then fetches a managed-identity token from the Azure Instance Metadata
Service (IMDS), builds the Azure login payload with an optional anti-replay nonce, and
exchanges that payload at Vault's `auth/azure/login` endpoint for a Vault client token.

What is modelled is the decision procedure inside the I/O. Every outside result is an input:

- `AuthAzure.Host` holds the environment lookup, the config-file reader, the whole-file
  reader and the outcome of the single IMDS GET.
- `AuthAzure.Client` is the Vault client's logical write.

A run returns what Go returns, `(token, err)`. It also returns the list of I/O calls it made
(`Call`). That list is what the ordering and fail-fast properties are stated over.

Files:

- `wrappers.dfy`: `Option` and `Result`.
- `imds.dfy` (module `Imds`): the JSON value type; the decode of a document into a Go
  `map[string]interface{}`, including its failure on a number that overflows a 64-bit float, and
  its treatment of repeated member names (the last is stored); `parseAzureTokenResponse`; and `getAzureManagedIdentityToken`
  as "take the GET's outcome, read the body, parse". Also the fixed URL and the
  `Metadata: true` header, as constants.
- `auth_azure.dfy` (module `AuthAzure`): the inputs, the call log, the stage functions
  (`ResolveRole`, `ReadNonce`, `LoginPayload`), the specification function `Exchange`, and
  `Create`. `Create` is written step by step, as in Go: it reassigns `role`, inserts `nonce`
  into the payload map, and returns early on each failure. It is proved to perform `Exchange`.
- `auth_azure_properties.dfy` (module `AuthAzureProperties`): lemmas about `Exchange`.

The code behaves as follows where a stricter behaviour might be expected; the model
follows the code:

- The IMDS status code is never checked. A body is parsed whatever the status
  (`Imds.StatusIsIgnored`, `Imds.ErrorStatusWithTokenSucceeds`). Treating a non-success
  status as a transport error would be the stricter behaviour.
- An empty `access_token` is accepted. So a login can be sent with an empty `jwt`
  (`AuthAzureProperties.EmptyJwtCanBeSent`). A stricter exchange would never send an
  empty identity token.
- A nonce file that is named but cannot be read, including a missing file, is an error
  that ends the run. Only an unset setting or empty content means "no nonce". Treating a
  missing file as "no nonce" would be the more lenient behaviour.
- A Vault response whose `Auth` block has an empty client token is a success that returns
  the empty token (`AuthAzureProperties.EmptyClientTokenIsSuccess`). A stricter exchange
  would report a missing session token as an error.
- A successful Vault response without an `Auth` block is not handled: Go would dereference
  nil and panic. The model excludes exactly that case with the precondition
  `LoginReturnsAuth`. It constrains only the response to the one payload the run sends
  (`SentPayload`), so a run that stops before the login is defined for every client
  (`AuthAzureProperties.EarlyStopNeedsNoAuth`).

## Model

| member | source | states |
|---|---|---|
| `Imds.UnmarshalObject` | auth_azure.go:121-125 | decoding into a Go map succeeds exactly for `null` (an empty map) or an object none of whose numbers, at any depth and in any repeat of a member name, overflows a 64-bit float (then the map of its members, last repeat winning); an object with an overflowing number is the number type error; a syntax error is returned as it is; any other JSON value is a type error |
| `Imds.Fields` | auth_azure.go:121-122 | every member name of the object is a key of the decoded map, and the last member's value is stored under its name |
| `Imds.FieldsHaveMemberNames` | auth_azure.go:121-122 | every key of the decoded map is the name of some member |
| `Imds.LastMemberWins` | auth_azure.go:121-122 | the value stored under a name is that of its last member in document order |
| `Imds.ParseAzureTokenResponse` | auth_azure.go:116-134 | succeeds exactly when the document decodes and is an object whose `access_token` is a string, and then returns that string; a decode failure is returned as it is; a decoded document without a string `access_token` is the missing-token error |
| `Imds.GetAzureManagedIdentityToken` | auth_azure.go:79-113 | a transport failure or a body-read failure is returned as it is; otherwise the result is the parse of the body; it succeeds exactly when the GET and the read succeed and the body decodes with a string `access_token` |
| `Imds.OnlyAccessTokenMatters` | auth_azure.go:121-133 | two objects that both decode and agree on `access_token` parse to the same result, whatever their other members |
| `Imds.EmptyAccessTokenAccepted` | auth_azure.go:121-133 | in an object that decodes, an empty-string `access_token` is a successful parse giving `""` |
| `Imds.OutOfRangeNumberFails` | auth_azure.go:121-125 | `{"access_token":"abc","expires_in":1e400}` is the number type error, although `access_token` is a string |
| `Imds.NestedOutOfRangeNumberFails` | auth_azure.go:121-125 | an overflowing number inside an array member of the object fails the decode too |
| `Imds.UnderflowingNumberDecodes` | auth_azure.go:121-125 | a number that underflows a 64-bit float, such as `1e-400`, is no decode error |
| `Imds.OverflowInRepeatedMemberFails` | auth_azure.go:121-125 | `{"x":1e400,"x":1,"access_token":"a"}` is the number type error, although the later `x` replaces the earlier one in the map |
| `Imds.RepeatedAccessTokenLastWins` | auth_azure.go:121-133 | of two `access_token` members, the last one is the token |
| `Imds.ExampleResponseParses` | auth_azure.go:117-133 | the documented response `{"access_token":"abc123","expires_in":3600,"token_type":"Bearer"}` yields `abc123` |
| `Imds.ResponseWithoutTokenFails` | auth_azure.go:128-131 | `{"expires_in":3600}` yields the missing-token error |
| `Imds.StatusIsIgnored` | auth_azure.go:94-112 | the outcome of the fetch is the same for every HTTP status |
| `Imds.ErrorStatusWithTokenSucceeds` | auth_azure.go:94-112 | a status-500 response whose body carries a token is a successful fetch |
| `AuthAzure.ResolveRole` | auth_azure.go:28-37 | with no config file the role is the environment value; with one, it is the file's RoleID, even an empty one; a config read error is returned |
| `AuthAzure.ReadNonce` | auth_azure.go:56-66 | it fails exactly when a nonce file is named and its read fails, with that error; there is a nonce exactly when a named file is read with non-empty content, and then it is that content |
| `AuthAzure.LoginPayload` | auth_azure.go:50-66 | the payload's keys are exactly `role` and `jwt`, plus `nonce` when there is a nonce; `role` and `jwt` hold the role and the token, `nonce` holds the nonce |
| `AuthAzure.Exchange` | auth_azure.go:27-76 | a failed run returns an empty token; every run starts with the role lookup |
| `AuthAzure.Create` | auth_azure.go:27-76 | the step-by-step method returns the token, the error and the calls of `Exchange`; on an error the token is empty |
| `AuthAzureProperties.CallsInStepOrder` | auth_azure.go:28-72 | calls follow the fixed order: role lookup, config file, token fetch, nonce setting, nonce file, login; each happens at most once |
| `AuthAzureProperties.FailureEndsTheRun` | auth_azure.go:30-72 | after a failure the token is empty and no later step is called; the last call is the one that failed, except for the empty-role check, which makes no call |
| `AuthAzureProperties.ConfigFileOverridesEnv` | auth_azure.go:29-37 | once a config file is named, the environment value has no effect on the role |
| `AuthAzureProperties.EmptyFileRoleWins` | auth_azure.go:30-37 | an empty RoleID in a named config file gives the empty role |
| `AuthAzureProperties.ConfigReadErrorReturned` | auth_azure.go:30-34 | a config read error ends the run at once: that error, an empty token, and only the role lookup and the config read were called |
| `AuthAzureProperties.EmptyRoleFailsFast` | auth_azure.go:39-42 | an empty role gives "role must be provided" and an empty token; no token fetch, nonce read or login is made, and nothing goes out over the network |
| `AuthAzureProperties.TokenFetchErrorReturned` | auth_azure.go:44-48 | a failed token fetch ends the run right after the fetch, with that error |
| `AuthAzureProperties.NonceReadErrorStopsBeforeLogin` | auth_azure.go:57-62 | a failed read of a named nonce file is returned with an empty token; it comes after the token fetch, the file read is the last call, and no login is made |
| `AuthAzureProperties.UnsetNonceFileIsNoError` | auth_azure.go:57-58 | with no nonce file named, no file is read and the run never fails with a nonce error |
| `AuthAzureProperties.PayloadSent` | auth_azure.go:51-69 | a login is made only as the last call, to `auth/azure/login`, with the payload `SentPayload` gives; that payload has exactly `role` (the resolved, non-empty role), `jwt` (the fetched token) and, only when a named nonce file was read with non-empty content, `nonce` (that content, never empty) |
| `AuthAzureProperties.LoginOutcome` | auth_azure.go:69-75 | after the login, a successful response gives exactly its `Auth.ClientToken` and no error; a login error is returned with an empty token |
| `AuthAzureProperties.SucceedsExactlyWhen` | auth_azure.go:27-76 | a run succeeds if and only if the role resolves to a non-empty value, the token fetch succeeds, the nonce read succeeds, and the login of the resulting payload succeeds |
| `AuthAzureProperties.SuccessfulRunCalls` | auth_azure.go:27-76 | a successful run makes every step's calls, ending with the login |
| `AuthAzureProperties.SuccessMakesTwoOutboundCalls` | auth_azure.go:44-72 | a successful run makes exactly two outbound calls: the IMDS fetch, then the Vault login |
| `AuthAzureProperties.EmptyJwtCanBeSent` | auth_azure.go:44-75 | when IMDS returns an empty `access_token`, the login is still made, with `jwt` set to `""` |
| `AuthAzureProperties.EmptyClientTokenIsSuccess` | auth_azure.go:69-75 | a Vault response whose `Auth` block has an empty client token gives a run with no error and the empty token |
| `AuthAzureProperties.EarlyStopNeedsNoAuth` | auth_azure.go:30-66 | when the run stops before the login, the `Auth` precondition holds for every client, including one that never returns `Auth` |
| `AuthAzureProperties.LoginSentExactlyWhenPayload` | auth_azure.go:30-69 | when `SentPayload` has a payload, the run's last call is the login with it; when it has none, no login is made |

## Left out

- `NewAzurePlugin`: it only wraps the Vault client. `AzurePlugin(client)` stands for it.
- The HTTP client and request (auth_azure.go:81-98): network I/O. The URL and the
  `Metadata: true` header are constants only. `http.NewRequest` is not modelled as failing,
  because its arguments are a fixed, well-formed GET and URL. `resp.Body.Close` is resource
  release, with nothing to state.
- `os.Getenv`, `ioutil.ReadFile`, `ioutil.ReadAll` and `readConfigFile`: process and file I/O.
  `readConfigFile` is not part of this model. Their results are inputs (`Host`). Only the
  RoleID of the decoded config file, and only `FileName` and `FileFormat` of the options,
  are modelled.
- The JSON scanner of `json.Unmarshal`: foreign code. Its outcome is an input: a JSON value,
  with each number marked by whether its magnitude overflows a 64-bit float (underflow is not
  an error) and each object's members in document order, or a syntax error. The decode of
  that value into a Go map is modelled, including the number-range failure. The texts of the
  type errors are fixed messages, not Go's exact wording (which names the offending literal).
- The Vault client's `Logical().Write`: a foreign network client. It is the `write`
  oracle, returning a response or an error.
- A missing `Auth` block, or a nil response from the write, on the login the run sends: Go
  would dereference nil and panic. Both are excluded by the precondition `LoginReturnsAuth`
  and not modelled as an outcome.
- Timeouts, cancellation and concurrent callers: the code has none. Each call builds its own
  payload and shares no state.
