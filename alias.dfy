/**
 * Alias resolution (package `alias`): the scoped alias-key derivation, the
 * two-tier lookup `Get` (direct name first, alias record second) and the
 * registration helper `Name` that computes the key an alias record is written
 * under.
 *
 * The object store is an immutable snapshot. A read of the snapshot either
 * finds a value, misses (a NotFound error), or fails with another error; the
 * failing reads are listed in the snapshot itself.
 */
module Alias {
  import opened Wrappers

  // ---------------------------------------------------------------------------
  // Collaborators whose definitions are not part of this model
  // ---------------------------------------------------------------------------

  /** Output of the stable hasher. The key builder keeps its first 8 characters,
      so every digest has at least 8. */
  type Digest = s: string | |s| >= 8 witness "00000000"

  /** `system.AliasPrefix`, `hash.String` and `name.SafeHashConcatName`, left uninterpreted. */
  datatype Naming = Naming(
    aliasPrefix: string,
    hash: string -> Digest,
    safeHashConcatName: (string, string) -> string)

  // ---------------------------------------------------------------------------
  // Data model
  // ---------------------------------------------------------------------------

  /** A `schema.GroupVersionKind`. */
  datatype GVK = GVK(group: string, version: string, kind: string)

  /**
   * An object taking part in aliasing, seen through the capabilities the core
   * asks of it: its Go type, `GetAliasName()`, `GetAliasScope()` when the type
   * implements `AliasScoped` (None when it does not), and whether it also
   * implements `runtime.Object`.
   */
  datatype Aliasable = Aliasable(
    typeName: string,
    aliasName: string,
    aliasScope: Option<string>,
    isRuntimeObject: bool)

  /**
   * Errors: the API server's NotFound status, any other error, and `errors.Join`.
   * `apiStatus` tells whether another error is an API status error (a status
   * with a reason other than NotFound, such as Forbidden or a server error).
   */
  datatype Error =
    | NotFound(group: string, resource: string, name: string)
    | Other(message: string, apiStatus: bool)
    | Joined(first: Error, second: Error)

  /** A leaf error that `errors.As` would take as an API status. */
  predicate IsStatus(e: Error) {
    e.NotFound? || (e.Other? && e.apiStatus)
  }

  /** The first API status `errors.As` reaches, searching joined errors depth-first, left to right. */
  function FirstStatus(e: Error): Option<Error> {
    match e
    case Joined(a, b) => if FirstStatus(a).Some? then FirstStatus(a) else FirstStatus(b)
    case _ => if IsStatus(e) then Some(e) else None
  }

  /** `apierrors.IsNotFound`: the first API status reachable through joined errors has reason NotFound. */
  predicate IsNotFound(e: Error) {
    FirstStatus(e).Some? && FirstStatus(e).value.NotFound?
  }

  /** The leaf errors of a join tree, left to right: what `errors.Is` and `errors.As` can reach. */
  function Causes(e: Error): (cs: seq<Error>)
    ensures |cs| >= 1
    ensures forall i :: 0 <= i < |cs| ==> !cs[i].Joined?
    ensures !e.Joined? ==> cs == [e]
  {
    match e
    case Joined(a, b) => Causes(a) + Causes(b)
    case _ => [e]
  }

  /** No leaf before position `i` of `cs` is an API status. */
  predicate NoStatusBefore(cs: seq<Error>, i: int)
    requires 0 <= i <= |cs|
  {
    forall j :: 0 <= j < i ==> !IsStatus(cs[j])
  }

  /** The first status found is the first status leaf of the join tree. */
  lemma {:induction false} FirstStatusIsFirstStatusCause(e: Error)
    ensures FirstStatus(e).None? <==> NoStatusBefore(Causes(e), |Causes(e)|)
    ensures FirstStatus(e).Some? ==>
              exists i :: 0 <= i < |Causes(e)| && Causes(e)[i] == FirstStatus(e).value
                && IsStatus(Causes(e)[i]) && NoStatusBefore(Causes(e), i)
  {
    match e
    case Joined(a, b) =>
      FirstStatusIsFirstStatusCause(a);
      FirstStatusIsFirstStatusCause(b);
      var ca, cb := Causes(a), Causes(b);
      assert Causes(e) == ca + cb;
      if FirstStatus(a).Some? {
        var i :| 0 <= i < |ca| && ca[i] == FirstStatus(a).value && IsStatus(ca[i]) && NoStatusBefore(ca, i);
        assert Causes(e)[i] == ca[i];
        assert NoStatusBefore(Causes(e), i) by {
          forall j | 0 <= j < i ensures !IsStatus(Causes(e)[j]) {
            assert Causes(e)[j] == ca[j];
          }
        }
      } else {
        assert NoStatusBefore(ca, |ca|);
        if FirstStatus(b).Some? {
          var i :| 0 <= i < |cb| && cb[i] == FirstStatus(b).value && IsStatus(cb[i]) && NoStatusBefore(cb, i);
          assert Causes(e)[|ca| + i] == cb[i];
          assert NoStatusBefore(Causes(e), |ca| + i) by {
            forall j | 0 <= j < |ca| + i ensures !IsStatus(Causes(e)[j]) {
              if j < |ca| {
                assert Causes(e)[j] == ca[j];
              } else {
                assert Causes(e)[j] == cb[j - |ca|];
              }
            }
          }
        } else {
          assert NoStatusBefore(Causes(e), |Causes(e)|) by {
            forall j | 0 <= j < |Causes(e)| ensures !IsStatus(Causes(e)[j]) {
              if j < |ca| {
                assert Causes(e)[j] == ca[j];
              } else {
                assert Causes(e)[j] == cb[j - |ca|];
              }
            }
          }
        }
      }
    case NotFound(_, _, _) =>
      assert Causes(e)[0] == e;
    case Other(_, _) =>
      assert Causes(e)[0] == e;
  }

  /**
   * An error is a NotFound exactly when some leaf of its join tree is a NotFound
   * and no API status comes before it.
   */
  lemma NotFoundIffFirstStatusCause(e: Error)
    ensures IsNotFound(e) <==>
              exists i :: 0 <= i < |Causes(e)| && Causes(e)[i].NotFound? && NoStatusBefore(Causes(e), i)
  {
    FirstStatusIsFirstStatusCause(e);
    var cs := Causes(e);
    if FirstStatus(e).Some? {
      var k :| 0 <= k < |cs| && cs[k] == FirstStatus(e).value && IsStatus(cs[k]) && NoStatusBefore(cs, k);
      // a NotFound leaf is a status, so none lies before k, and k is the only candidate
      forall i | 0 <= i < |cs| && cs[i].NotFound? && NoStatusBefore(cs, i)
        ensures i == k
      {
        assert IsStatus(cs[i]);
      }
    }
  }

  /** A join whose first part is a NotFound is a NotFound, whatever follows it. */
  lemma JoinAfterNotFound(e: Error, other: Error)
    requires IsNotFound(e)
    ensures IsNotFound(Joined(e, other))
  {
  }

  /** The `Spec` of a cluster-scoped `v1.Alias` record. */
  datatype AliasSpec = AliasSpec(targetKind: string, targetNamespace: string, targetName: string)

  /** A stored object; `content` stands for everything the alias core never inspects. */
  datatype Object = Object(typeName: string, namespace: string, name: string, content: string)

  /** A read the resolver issues: an object of a Go type at (namespace, name), or the alias record at a key. */
  datatype ReadKey =
    | ObjectRead(typeName: string, namespace: string, name: string)
    | AliasRead(key: string)

  /**
   * A snapshot of the store: objects by (Go type, namespace, name), alias records
   * by key, and the reads that fail with an error other than NotFound.
   */
  datatype Store = Store(
    objects: map<(string, string, string), Object>,
    aliases: map<string, AliasSpec>,
    faults: map<ReadKey, Fault>)

  /** The error a failing read gives: its message, and whether it is an API status. */
  datatype Fault = Fault(message: string, apiStatus: bool)

  /** `c.Get` of an object. */
  function ReadObject(s: Store, typeName: string, namespace: string, name: string): Result<Object, Error> {
    if ObjectRead(typeName, namespace, name) in s.faults then
      var f := s.faults[ObjectRead(typeName, namespace, name)];
      Failure(Other(f.message, f.apiStatus))
    else if (typeName, namespace, name) in s.objects then
      Success(s.objects[(typeName, namespace, name)])
    else
      Failure(NotFound("", typeName, name))
  }

  /** `c.Get` of the cluster-scoped alias record at `key`. */
  function ReadAlias(s: Store, key: string): Result<AliasSpec, Error> {
    if AliasRead(key) in s.faults then Failure(Other(s.faults[AliasRead(key)].message, s.faults[AliasRead(key)].apiStatus))
    else if key in s.aliases then Success(s.aliases[key])
    else Failure(NotFound("", "Alias", key))
  }

  // ---------------------------------------------------------------------------
  // Kind lookup
  // ---------------------------------------------------------------------------

  /**
   * A `GVKLookup`: either the fixed `FromGVK`, or a type registry (the client's
   * scheme) that maps a Go type to its kind and may fail.
   */
  datatype GVKLookup =
    | FromGVK(gvk: GVK)
    | Scheme(kindOf: string -> Result<GVK, Error>)

  /** `GroupVersionKindFor`; `FromGVK` ignores the object and never fails. */
  function GroupVersionKindFor(lookup: GVKLookup, obj: Aliasable): (r: Result<GVK, Error>)
    ensures lookup.FromGVK? ==> r == Success(lookup.gvk)
  {
    match lookup
    case FromGVK(g) => Success(g)
    case Scheme(kindOf) => kindOf(obj.typeName)
  }

  /** A controller-runtime client: a store snapshot and the scheme it resolves kinds with. */
  datatype Client = Client(store: Store, kinds: GVKLookup)

  // ---------------------------------------------------------------------------
  // Key derivation
  // ---------------------------------------------------------------------------

  /** The alias record key: the reserved prefix and 8 characters of the hash of (id, scope). */
  function KeyFromScopeID(naming: Naming, scope: string, id: string): (key: string)
    ensures |key| == |naming.aliasPrefix| + 8
    ensures key[..|naming.aliasPrefix|] == naming.aliasPrefix
  {
    naming.aliasPrefix + naming.hash(naming.safeHashConcatName(id, scope))[..8]
  }

  /**
   * Two keys coincide exactly when the 8-character fragments of their hashes do:
   * the prefix contributes nothing, and equal concatenations give equal keys.
   */
  lemma KeyCollisionIffFragmentCollision(naming: Naming, scope1: string, id1: string, scope2: string, id2: string)
    ensures (KeyFromScopeID(naming, scope1, id1) == KeyFromScopeID(naming, scope2, id2))
        <==> (naming.hash(naming.safeHashConcatName(id1, scope1))[..8]
              == naming.hash(naming.safeHashConcatName(id2, scope2))[..8])
    ensures naming.safeHashConcatName(id1, scope1) == naming.safeHashConcatName(id2, scope2)
        ==> KeyFromScopeID(naming, scope1, id1) == KeyFromScopeID(naming, scope2, id2)
  {
  }

  /** The collision domain of an alias: a non-empty `GetAliasScope()` when the type has one, else the kind. */
  function GetScope(gvk: GVK, obj: Aliasable): (scope: string)
    ensures obj.aliasScope.Some? && obj.aliasScope.value != "" ==> scope == obj.aliasScope.value
    ensures obj.aliasScope.None? || obj.aliasScope.value == "" ==> scope == gvk.kind
  {
    if obj.aliasScope.Some? && obj.aliasScope.value != "" then obj.aliasScope.value else gvk.kind
  }

  /** Only the Kind of a GVK reaches the scope, and the scope is empty only when the kind is. */
  lemma ScopeDependsOnlyOnKind(g1: GVK, g2: GVK, obj: Aliasable)
    requires g1.kind == g2.kind
    ensures GetScope(g1, obj) == GetScope(g2, obj)
    ensures GetScope(g1, obj) == "" ==> g1.kind == ""
  {
  }

  // ---------------------------------------------------------------------------
  // Registration
  // ---------------------------------------------------------------------------

  /**
   * The key an object's alias record is registered under: "" when the object
   * asks for no alias, an error when its kind cannot be looked up, and otherwise
   * the key `Get` reads for the same kind and the same name.
   */
  function Name(naming: Naming, lookup: GVKLookup, obj: Aliasable): (r: Result<string, Error>)
    ensures r.Success? && r.value == "" <==> obj.aliasName == ""
    ensures r.Failure? <==> obj.aliasName != "" && (!obj.isRuntimeObject || GroupVersionKindFor(lookup, obj).Failure?)
    ensures obj.aliasName != "" && obj.isRuntimeObject && GroupVersionKindFor(lookup, obj).Failure? ==>
              r == Failure(GroupVersionKindFor(lookup, obj).error)
    ensures r.Success? && r.value != "" ==>
              r.value == KeyFromScopeID(naming, GetScope(GroupVersionKindFor(lookup, obj).value, obj), obj.aliasName)
  {
    var id := obj.aliasName;
    if id == "" then Success("")
    else if !obj.isRuntimeObject then
      Failure(Other("object " + obj.typeName + " does not implement runtime.Object, can not lookup gvk", false))
    else
      match GroupVersionKindFor(lookup, obj)
      case Failure(err) => Failure(err)
      case Success(gvk) => Success(KeyFromScopeID(naming, GetScope(gvk, obj), id))
  }

  /** With a fixed kind the registration key never fails and is computed from that kind. */
  lemma NameFromGVK(naming: Naming, gvk: GVK, obj: Aliasable)
    requires obj.aliasName != "" && obj.isRuntimeObject
    ensures Name(naming, FromGVK(gvk), obj) == Success(KeyFromScopeID(naming, GetScope(gvk, obj), obj.aliasName))
  {
  }

  // ---------------------------------------------------------------------------
  // Resolution
  // ---------------------------------------------------------------------------

  /** Whether `Get` goes on to the alias phase: no namespace, or the direct read missed. */
  predicate FallsBack(c: Client, obj: Aliasable, namespace: string, name: string) {
    namespace == "" ||
    (var direct := ReadObject(c.store, obj.typeName, namespace, name);
     direct.Failure? && IsNotFound(direct.error))
  }

  /** The error the alias phase falls back to: a NotFound made up from kind and name, or the direct miss. */
  function ErrLookup(c: Client, obj: Aliasable, namespace: string, name: string): Error
    requires FallsBack(c, obj, namespace, name)
    requires GroupVersionKindFor(c.kinds, obj).Success?
  {
    if namespace == "" then
      var gvk := GroupVersionKindFor(c.kinds, obj).value;
      NotFound(gvk.group, gvk.kind, name)
    else
      ReadObject(c.store, obj.typeName, namespace, name).error
  }

  /** The reads issued before the alias record is read. */
  function DirectReads(obj: Aliasable, namespace: string, name: string): seq<ReadKey> {
    if namespace == "" then [] else [ObjectRead(obj.typeName, namespace, name)]
  }

  /**
   * Resolves `name` in `namespace` to an object of `obj`'s type, directly or
   * through one alias record. `trace` lists the store reads in the order issued.
   */
  method Get(naming: Naming, c: Client, obj: Aliasable, namespace: string, name: string)
    returns (r: Result<Object, Error>, trace: seq<ReadKey>)
    requires obj.isRuntimeObject
    // at most the direct read, the alias record, and its one target
    ensures |trace| <= 3
    // an empty namespace never reads an object directly
    ensures namespace == "" ==> trace == [] || trace[0].AliasRead?
    // a direct hit wins, and a direct error other than NotFound is returned as it is
    ensures var direct := ReadObject(c.store, obj.typeName, namespace, name);
            namespace != "" && (direct.Success? || !IsNotFound(direct.error)) ==>
              r == direct && trace == [ObjectRead(obj.typeName, namespace, name)]
    // a kind that cannot be looked up ends the lookup before any alias record is read
    ensures FallsBack(c, obj, namespace, name) && GroupVersionKindFor(c.kinds, obj).Failure? ==>
              r == Failure(GroupVersionKindFor(c.kinds, obj).error) && trace == DirectReads(obj, namespace, name)
    // the alias record read is at the key derived from the kind's scope and the name
    ensures FallsBack(c, obj, namespace, name) && GroupVersionKindFor(c.kinds, obj).Success? ==>
              var gvk := GroupVersionKindFor(c.kinds, obj).value;
              var key := KeyFromScopeID(naming, GetScope(gvk, obj), name);
              |trace| > |DirectReads(obj, namespace, name)| &&
              trace[..|DirectReads(obj, namespace, name)| + 1] == DirectReads(obj, namespace, name) + [AliasRead(key)]
    // no alias record, or one for another kind: exactly the original lookup error
    ensures FallsBack(c, obj, namespace, name) && GroupVersionKindFor(c.kinds, obj).Success? ==>
              var gvk := GroupVersionKindFor(c.kinds, obj).value;
              var a := ReadAlias(c.store, KeyFromScopeID(naming, GetScope(gvk, obj), name));
              (a.Failure? && IsNotFound(a.error)) || (a.Success? && a.value.targetKind != gvk.kind) ==>
                r == Failure(ErrLookup(c, obj, namespace, name)) && |trace| == |DirectReads(obj, namespace, name)| + 1
    // any other failure of the alias read is joined to the original lookup error, so both
    // are kept, and the result still reads as a NotFound
    ensures FallsBack(c, obj, namespace, name) && GroupVersionKindFor(c.kinds, obj).Success? ==>
              var gvk := GroupVersionKindFor(c.kinds, obj).value;
              var a := ReadAlias(c.store, KeyFromScopeID(naming, GetScope(gvk, obj), name));
              a.Failure? && !IsNotFound(a.error) ==>
                r == Failure(Joined(ErrLookup(c, obj, namespace, name), a.error)) &&
                Causes(r.error) == Causes(ErrLookup(c, obj, namespace, name)) + Causes(a.error) &&
                IsNotFound(r.error) &&
                |trace| == |DirectReads(obj, namespace, name)| + 1
    // a matching alias record: the result is whatever its target read gives, with no further fallback
    ensures FallsBack(c, obj, namespace, name) && GroupVersionKindFor(c.kinds, obj).Success? ==>
              var gvk := GroupVersionKindFor(c.kinds, obj).value;
              var a := ReadAlias(c.store, KeyFromScopeID(naming, GetScope(gvk, obj), name));
              a.Success? && a.value.targetKind == gvk.kind ==>
                r == ReadObject(c.store, obj.typeName, a.value.targetNamespace, a.value.targetName) &&
                trace[|trace| - 1] == ObjectRead(obj.typeName, a.value.targetNamespace, a.value.targetName) &&
                |trace| == |DirectReads(obj, namespace, name)| + 2
  {
    trace := [];
    var errLookup: Error;
    if namespace == "" {
      var found := GroupVersionKindFor(c.kinds, obj);
      if found.Failure? {
        return Failure(found.error), trace;
      }
      errLookup := NotFound(found.value.group, found.value.kind, name);
    } else {
      var direct := ReadObject(c.store, obj.typeName, namespace, name);
      trace := trace + [ObjectRead(obj.typeName, namespace, name)];
      if direct.Failure? && !IsNotFound(direct.error) {
        return direct, trace;
      } else if direct.Success? {
        return direct, trace;
      }
      errLookup := direct.error;
    }

    var found := GroupVersionKindFor(c.kinds, obj);
    if found.Failure? {
      return Failure(found.error), trace;
    }
    var gvk := found.value;

    var key := KeyFromScopeID(naming, GetScope(gvk, obj), name);
    var alias := ReadAlias(c.store, key);
    trace := trace + [AliasRead(key)];
    if alias.Failure? && IsNotFound(alias.error) {
      return Failure(errLookup), trace;
    } else if alias.Failure? {
      return Failure(Joined(errLookup, alias.error)), trace;
    } else if alias.value.targetKind != gvk.kind {
      return Failure(errLookup), trace;
    }

    r := ReadObject(c.store, obj.typeName, alias.value.targetNamespace, alias.value.targetName);
    trace := trace + [ObjectRead(obj.typeName, alias.value.targetNamespace, alias.value.targetName)];
  }

  /**
   * Registration and resolution agree. `obj` registers its alias through any kind
   * lookup `reg`, and an alias record naming that kind and the object's namespace
   * and name is stored under the key `Name` computes. A later `Get` of the alias
   * name, into a handle `target` with the same scope override whose kind the
   * client resolves to the same Kind, in any namespace where the direct read
   * misses (or none), reads exactly that key and returns exactly what the store
   * holds for the registered object.
   */
  method ResolveRegisteredAlias(
    naming: Naming, reg: GVKLookup, obj: Aliasable, objNamespace: string, objName: string,
    c: Client, target: Aliasable, namespace: string)
    returns (r: Result<Object, Error>, trace: seq<ReadKey>)
    requires obj.isRuntimeObject && obj.aliasName != ""
    requires GroupVersionKindFor(reg, obj).Success?
    requires target.isRuntimeObject && target.aliasScope == obj.aliasScope
    requires GroupVersionKindFor(c.kinds, target).Success?
    requires GroupVersionKindFor(c.kinds, target).value.kind == GroupVersionKindFor(reg, obj).value.kind
    requires FallsBack(c, target, namespace, obj.aliasName)
    requires AliasRead(Name(naming, reg, obj).value) !in c.store.faults
    ensures r == ReadObject(c.store, target.typeName, objNamespace, objName)
    ensures trace == DirectReads(target, namespace, obj.aliasName)
                     + [AliasRead(Name(naming, reg, obj).value), ObjectRead(target.typeName, objNamespace, objName)]
  {
    var key := Name(naming, reg, obj).value;
    var record := AliasSpec(GroupVersionKindFor(reg, obj).value.kind, objNamespace, objName);
    var registered := c.(store := c.store.(aliases := c.store.aliases[key := record]));
    assert FallsBack(registered, target, namespace, obj.aliasName);
    r, trace := Get(naming, registered, target, namespace, obj.aliasName);
  }
}
