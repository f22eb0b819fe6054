# Alias resolution, modelled in Dafny

This project models the alias subsystem of the otto8 API server, together with the
resource types that take part in it.

- **Key derivation** (`pkg/alias/get.go`). An alias record key is the reserved prefix
  `system.AliasPrefix` followed by the first 8 characters of
  `hash.String(name.SafeHashConcatName(id, scope))`. The scope is the type's own
  `GetAliasScope()` when it implements `AliasScoped` and returns a non-empty value.
  Otherwise the scope is the kind.
- **Two-tier lookup** (`Get`). A non-empty namespace is first read directly. A hit wins.
  A failure other than NotFound is returned as it is. Otherwise the lookup reads the
  cluster-scoped alias record at the derived key, checks the record's target kind, and
  reads the one object the record points at.
- **Registration** (`Name`). This computes the key under which an object's alias record
  is written. `Get` reads that same key for any handle with the same scope override
  whose kind resolves to the same Kind.
- **Resources** (`pkg/storage/apis/otto.otto8.ai/v1`). `Webhook` takes its alias name
  from its manifest and keeps an alias-assigned flag that is set in place.
  `OAuthApp` takes its alias name from its integration. It exposes that integration as its
  one indexed field and builds its OAuth endpoint URLs. `OAuthAppLogin` is indexed by its
  credential context. Both declare cascading-delete references.
- **HTTP errors** (`apiclient/types/errors.go`). These are the `ErrHTTP` constructors and
  the rendering of an error as text.

Files and modules:

| file | module | models |
|---|---|---|
| `wrappers.dfy` | `Wrappers` | `Option`, `Result` |
| `system.dfy` | `System` | the `system.Is*ID` predicates (uninterpreted) and `v1.Ref` |
| `alias.dfy` | `Alias` | `pkg/alias/get.go` |
| `webhook.dfy` | `Webhooks` | `Webhook` (a class: `SetAssigned` updates it in place) |
| `oauthapp.dfy` | `OAuthApps`, `OAuthAppLogins` | `OAuthApp` and `OAuthAppLogin` (pure values) |
| `errors.dfy` | `HttpErrors` | `apiclient/types/errors.go` |

The store is an immutable snapshot (`Alias.Store`). It holds:

- the objects, keyed by Go type, namespace and name;
- the alias records, keyed by alias key;
- the reads that fail with an error other than NotFound, each with a flag saying whether
  that error is an API status (such as Forbidden) or some other failure.

A read that finds nothing yields a NotFound. `Get` returns its result together with the
list of store reads it issued, in order. That list is how its contract says which reads
happen: none directly when the namespace is empty, and at most one alias indirection.

Collaborators whose code is not part of this model are parameters:

- `hash.String`, `name.SafeHashConcatName` and `system.AliasPrefix` are fields of
  `Alias.Naming`. A hash is only known to have at least 8 characters (`Alias.Digest`).
- `system.IsAgentID`, `IsWorkflowID` and `IsWebhookID` are fields of `System.Ids`.
- The type registry is `Alias.GVKLookup.Scheme`.
- `http.StatusText` and `fmt.Sprintf` over caller arguments are function arguments.

`apierrors.IsNotFound` is modelled as `errors.As` behaves: it searches the tree of
`errors.Join` depth-first, left to right, and the first API status it reaches decides.
When the alias read fails with another error, `Get` joins the original NotFound in front
of that error. So the joined error still reads as a NotFound to callers, although the
alias-store failure is kept inside it. Callers therefore cannot tell an alias-store
failure from a missing object with `IsNotFound` alone.

## Model

| member | source | states |
|---|---|---|
| `Alias.Causes` | pkg/alias/get.go:47-48 | the leaves of an `errors.Join` tree are never joins themselves; a plain error is its own single leaf |
| `Alias.FirstStatusIsFirstStatusCause` | pkg/alias/get.go:45-48 | the depth-first search through joined errors finds no API status exactly when no leaf is one; otherwise it finds a leaf that is a status with no status leaf before it |
| `Alias.NotFoundIffFirstStatusCause` | pkg/alias/get.go:45-48 | an error satisfies `IsNotFound` exactly when some leaf of its join tree is a NotFound and no API status leaf comes before it |
| `Alias.JoinAfterNotFound` | pkg/alias/get.go:47-48 | a join whose first part is a NotFound is a NotFound whatever is joined after it |
| `Alias.GroupVersionKindFor` | pkg/alias/get.go:72-76 | a `FromGVK` lookup ignores the object, never fails and returns its fixed GVK |
| `Alias.KeyFromScopeID` | pkg/alias/get.go:56-58 | the key starts with the alias prefix and is exactly 8 characters longer than it; it is a function of (scope, id), hence deterministic |
| `Alias.KeyCollisionIffFragmentCollision` | pkg/alias/get.go:56-58 | two keys are equal exactly when their 8-character hash fragments are equal; equal safe concatenations give equal keys |
| `Alias.GetScope` | pkg/alias/get.go:60-66 | a present, non-empty scope override wins; otherwise the scope is the kind |
| `Alias.ScopeDependsOnlyOnKind` | pkg/alias/get.go:60-66 | group and version never affect the scope; the scope is empty only when the kind is |
| `Alias.Name` | pkg/alias/get.go:78-92 | the result is "" exactly when the alias name is empty; it fails exactly when the object is not a `runtime.Object` or its kind lookup fails, and then a lookup error is passed on unchanged; otherwise it is the key built from the kind's scope and the alias name |
| `Alias.NameFromGVK` | pkg/alias/get.go:74-91 | with a fixed `FromGVK` lookup, registration of an aliased object always succeeds with the key for that GVK's scope |
| `Alias.Get` | pkg/alias/get.go:19-54 | the decision table: a direct hit wins and other direct errors are returned unchanged, both after exactly one read; with an empty namespace there is no direct read and a kind-lookup failure ends the call; the alias record is read at the key derived from the kind's scope and the name; an absent record or one for another kind gives exactly the original lookup error; another alias-read error is joined to it with both kept; a matching record gives exactly the target read's result, with at most three reads in all |
| `Alias.ResolveRegisteredAlias` | pkg/alias/get.go:19-91 | once a record for `obj`'s kind (under any registration lookup) and location is stored under the key `Name` computes, `Get` by alias name into any handle with the same scope override whose kind resolves to the same Kind, in any namespace where the direct read misses, issues the direct reads, then reads exactly that key, then returns exactly the stored object's read |
| `Webhooks.Webhook.GetAliasName` | pkg/storage/apis/otto.otto8.ai/v1/webhook.go:23-25 | the alias a webhook asks for is the manifest's alias |
| `Webhooks.Webhook.IsAssigned` | pkg/storage/apis/otto.otto8.ai/v1/webhook.go:31-33 | reports exactly the status flag `aliasAssigned` |
| `Webhooks.Webhook.SetAssigned` | pkg/storage/apis/otto.otto8.ai/v1/webhook.go:27-29 | afterwards `IsAssigned()` holds; spec, alias name, status alias and last-run time are unchanged; on an assigned webhook nothing changes (idempotent) |
| `Webhooks.Webhook.DeleteRefs` | pkg/storage/apis/otto.otto8.ai/v1/webhook.go:46-53 | at most one reference; there is one exactly when `IsWebhookID(workflow)` holds, and it is a Workflow ref named by the manifest's workflow |
| `Webhooks.Webhook.IntendedDeleteRefs` | pkg/storage/apis/otto.otto8.ai/v1/webhook.go:46-53 | as above, but keyed on `IsWorkflowID(workflow)` (see Findings) |
| `Webhooks.WorkflowIDNotReferenced` | pkg/storage/apis/otto.otto8.ai/v1/webhook.go:46-53 | a manifest naming a workflow ID that is not a webhook ID gets no reference as written; the intended version references that workflow |
| `OAuthApps.GetAliasName` | pkg/storage/apis/otto.otto8.ai/v1/oauthapp.go:27-29 | an app's alias name is the value `Get` gives for "spec.manifest.integration" |
| `OAuthApps.IsAssigned` | pkg/storage/apis/otto.otto8.ai/v1/oauthapp.go:34-36 | always true |
| `OAuthApps.SetAssigned` | pkg/storage/apis/otto.otto8.ai/v1/oauthapp.go:31-32 | leaves the app unchanged, and it is assigned |
| `OAuthApps.Get` | pkg/storage/apis/otto.otto8.ai/v1/oauthapp.go:42-51 | "spec.manifest.integration" on a non-nil app gives the integration; any non-empty value comes from a non-nil app and a name listed by `FieldNames` |
| `OAuthApps.Has` | pkg/storage/apis/otto.otto8.ai/v1/oauthapp.go:38-40 | holds exactly for a non-nil app, the integration field, and a non-empty alias name |
| `OAuthApps.FieldNames` | pkg/storage/apis/otto.otto8.ai/v1/oauthapp.go:53-55 | the single name "spec.manifest.integration" |
| `OAuthApps.FieldNamesAreRecognised` | pkg/storage/apis/otto.otto8.ai/v1/oauthapp.go:42-55 | a name is listed by `FieldNames` exactly when `Get` gives some app a value for it |
| `OAuthApps.RedirectURL` | pkg/storage/apis/otto.otto8.ai/v1/oauthapp.go:57-59 | base URL + "/api/app-oauth/callback/" + integration |
| `OAuthApps.OAuthAppGetTokenURL` | pkg/storage/apis/otto.otto8.ai/v1/oauthapp.go:61-63 | base URL + "/api/app-oauth/get-token" |
| `OAuthApps.AuthorizeURL` | pkg/storage/apis/otto.otto8.ai/v1/oauthapp.go:65-67 | base URL + "/api/app-oauth/authorize/" + integration |
| `OAuthApps.RefreshURL` | pkg/storage/apis/otto.otto8.ai/v1/oauthapp.go:69-71 | base URL + "/api/app-oauth/refresh/" + integration |
| `OAuthApps.EndpointURLsIdentifyIntegration` | pkg/storage/apis/otto.otto8.ai/v1/oauthapp.go:57-71 | under one base URL each endpoint URL determines the integration, and an app's callback, authorize and refresh URLs are pairwise different |
| `OAuthApps.DeleteRefs` | pkg/storage/apis/otto.otto8.ai/v1/oauthapp.go:73-75 | always empty |
| `OAuthAppLogins.Get` | pkg/storage/apis/otto.otto8.ai/v1/oauthapp.go:102-110 | "spec.credentialContext" on a non-nil login gives the credential context; any non-empty value comes from a non-nil login and a name listed by `FieldNames` |
| `OAuthAppLogins.Has` | pkg/storage/apis/otto.otto8.ai/v1/oauthapp.go:98-100 | holds exactly for a non-nil login, the credential-context field, and a non-empty context |
| `OAuthAppLogins.FieldNames` | pkg/storage/apis/otto.otto8.ai/v1/oauthapp.go:112-114 | the single name "spec.credentialContext" |
| `OAuthAppLogins.FieldNamesAreRecognised` | pkg/storage/apis/otto.otto8.ai/v1/oauthapp.go:102-114 | a name is listed by `FieldNames` exactly when `Get` gives some login a value for it |
| `OAuthAppLogins.DeleteRefs` | pkg/storage/apis/otto.otto8.ai/v1/oauthapp.go:116-123 | at most one reference, named by the credential context; there is one exactly when the context is an agent ID or a workflow ID; it is an Agent ref exactly when the context is an agent ID, so an agent ID takes precedence |
| `HttpErrors.NewErrHttp` | apiclient/types/errors.go:17-22 | code and message are kept as given |
| `HttpErrors.NewErrNotFound` | apiclient/types/errors.go:24-31 | the code is always 404; with no args an empty message becomes "not found" and a non-empty one is kept; with args the defaulted message is the format they are rendered into |
| `HttpErrors.FormatInt` | apiclient/types/errors.go:14 | `%d` rendering: non-empty, a leading minus sign exactly for negative numbers, a digit otherwise |
| `HttpErrors.Error` | apiclient/types/errors.go:13-15 | the text is "error code ", then the code as `%d` renders it, then " (", the status text and "): ", then the message, each part at its own position |
| `HttpErrors.ErrorCodeRoundTrip` | apiclient/types/errors.go:13-15 | reading the number after "error code " back out of the text gives exactly the error's code, whatever the status text and message |

## Findings

| source | as written | input that shows it | evidently intended | confidence | as-written member | corrected member |
|---|---|---|---|---|---|---|
| pkg/storage/apis/otto.otto8.ai/v1/webhook.go:47 | the Workflow ref is declared when `system.IsWebhookID(w.Spec.Workflow)` holds | a webhook whose manifest names its workflow by a workflow ID that is not a webhook ID: no ref is declared, so deleting that workflow leaves the webhook | declare the ref when `system.IsWorkflowID(w.Spec.Workflow)` holds | medium; not executed; the ID predicates are not part of this model | `Webhooks.Webhook.DeleteRefs` (with `Webhooks.WorkflowIDNotReferenced`) | `Webhooks.Webhook.IntendedDeleteRefs` |

## Left out

- The controller-runtime client, `context`, and the cache. There are no races between the up to three reads of `Get`: the store is one snapshot.
- `Get` fills the caller's object in place. The model returns the object read instead, and only on success. What a failed read leaves in the object is not modelled.
- In the real client, `c.Get` resolves the object's kind through the scheme itself. The model's store reads are keyed by the Go type and do not consult the scheme.
- NotFound errors from the store name the read's type (or "Alias") and name, with an empty group. The API server's group and plural resource names are not modelled.
- `Get` requires that the object be a `client.Object`, because the type assertion panics otherwise. `client.Object` and `runtime.Object` are one flag in the model.
- `hash.String`, `name.SafeHashConcatName` and `system.AliasPrefix` are uninterpreted. Collision-freedom of keys and unambiguity of the concatenation are not proved, because neither follows from code in the model.
- `system.IsAgentID`, `IsWorkflowID` and `IsWebhookID` are uninterpreted predicates.
- `http.StatusText` and `fmt.Sprintf` with caller arguments are uninterpreted functions.
- Methods that dereference a nil receiver panic in Go: `OAuthApp.GetAliasName`, the URL builders and `OAuthAppLogin.DeleteRefs`. They take a non-nil value in the model.
- Kubernetes `TypeMeta`/`ObjectMeta`, deepcopy code, the `*List` types, JSON tags and `Webhook.GetColumns` (table display metadata) are left out.
- `apierrors.IsNotFound` also accepts a status whose reason is unknown but whose code is 404. The model's API statuses other than NotFound carry no code, so that case is not modelled.
- Only the manifest fields the code reads are modelled. `OAuthAppLogin.Status` is left out.
- The `Aliasable` and `AliasScoped` interfaces are declared in files not part of this model. They appear as the `Alias.Aliasable` datatype: an alias name and an optional scope override.
- Whether `Webhook` and `OAuthApp` implement `AliasScoped` is not modelled. Their types carry no `Alias.Aliasable` view.
