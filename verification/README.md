# Resource registry: a Dafny model

This project models the core of a Go registry for long-lived resources such as database handles and clients. The registry has three parts:

- A **manager** owns named **groups**.
- A group maps resource names to records. Each record holds a configuration (`cfg`) and, once opened, the resource value.
- Resources are created lazily by a caller-supplied **opener** the first time `Get` asks for them. They are torn down by an optional **closer** on `Unregister`, on group `Close` and on manager `Close`.

The model also covers the error taxonomy of the registry, with sentinels, `%w` wrappers and `errors.Is`. It also covers the two map helpers `MapGet` and `MapBy`.

Modules:

- `Wrappers`: `Option` and `Result`.
- `Errors` (registry/error.go): covers the following.
  - The four sentinels.
  - Wrapper errors as a datatype with an explicit wrap list.
  - `Is` as a walk of the wrap chain.
  - The four constructors. Each constructor's contract says exactly which errors its result `Is`.
- `Registry` (registry/registry.go, plus `Config` and `Ping` from registry/group.go): the state is `Manager(groups: map<group, map<name, Rec(cfg, val: Option<T>)>>, hasCloser)`. A record is ready exactly when `val.Some?`; the source only ever sets `val` and `ready` together.
  - Every deterministic operation is a pure function from the old state, the arguments and the opener's outcome to a `Step`. A `Step` holds the new state, the result and an event trace.
  - In the trace, `Opened(group, name, cfg)` is one opener call and `Closed(group, name, val)` is one closer call.
  - Operations that iterate over a Go map are methods that pick elements in an unspecified order: `List`, `ListGroupNames` and both `Close`s. Their contracts do not depend on that order.
- `RegistryLaws`: properties that span several operations.
  - The lazy-initialisation count: over any run of `Get`s, the opener is called at most one more time than it failed.
  - The first registration wins.
  - Retry after failure.
  - `Ping` does not disturb `Get`'s cache.
  - Unregister and then register again.
- `MapUtil` (maputil/map.go): `MapGet`, and `MapBy` with last-write-wins.

The opener and the closer are callbacks the model cannot see, so their outcomes are arguments:

- `open: Result<T, Error>` is what the opener returns if it is called. Operations that do not call it ignore it.
- For bulk close, `out(group, name)` is what the closer returns for the record at that address.
- `Unregister` discards the closer's error, so it takes no outcome.

`Config`, `MustConfig` and `Ping` are declared in registry/group.go:29-30,56-60, but registry/registry.go implements none of them. Their models follow the interface in registry/group.go and the tests in registry/registry_test.go:313-382 and 542-717.

- `Config` returns the stored `cfg` whatever the readiness. It fails with GroupNotFound or ResourceNotFound.
- `Ping` checks a single name, as its signature and tests do. Its doc comment describes a sweep over the whole group; the model does not follow that.
  - It calls the opener on every call and never stores the result.
  - An opener failure becomes `NewErrPingResourceFailed`. That constructor drops its `cause` argument (registry/error.go:55-57), so a ping error never matches an opener error other than ErrPingResourceFailed itself. `Errors.PingFailureDropsCause` states this.

`List` returns the resource names of its group (registry/registry.go:303-317). A comment in registry/registry_test.go:450-453 claims it returns group names. The model follows the code.

## Model

| member | source | states |
|---|---|---|
| Errors.NewErrGroupNotFound | registry/error.go:36-38 | the error matches exactly itself and ErrGroupNotFound, and no other sentinel |
| Errors.NewErrResourceNotFound | registry/error.go:43-45 | the error matches exactly itself and ErrResourceNotFound |
| Errors.NewErrCloseResourceFailed | registry/error.go:51-53 | the error matches itself, ErrCloseResourceFailed, and everything the closer's error matches |
| Errors.NewErrPingResourceFailed | registry/error.go:55-57 | the error matches only itself and ErrPingResourceFailed; the cause argument is not in the chain |
| Errors.Is | registry/error.go:8-15 | an error matches itself and everything it wraps; an error that wraps nothing matches only itself |
| Errors.WrappersMatchOneSentinel | registry/error.go:16-31 | the sentinels are distinct: each wrapper matches exactly one sentinel kind; for the close wrapper, this holds when the cause is an error from outside the registry |
| Errors.PingFailureDropsCause | registry/error.go:51-57 | an error from outside the registry, so not ErrPingResourceFailed itself, can be matched through a close failure but not through a ping failure |
| Registry.New | registry/registry.go:24-30 | a new manager has no groups and keeps whether a closer was given |
| Registry.NewGroup | registry/registry.go:376-392 | the manager holds exactly the empty group "defaultGroup" and the handle names it |
| Registry.Group | registry/registry.go:60-72 | succeeds iff the group exists, with a handle of that name; otherwise an error matching ErrGroupNotFound |
| Registry.MustGroup | registry/manager.go:15-17 | callable only where Group succeeds; the handle names an existing group |
| Registry.AddGroup | registry/registry.go:126-135 | reports whether the group existed; the group set gains the name, existing groups and their records are untouched, a new group is empty |
| Registry.ListGroupNames | registry/registry.go:140-148 | each group name exactly once, nothing else |
| Registry.Get | registry/registry.go:175-226 | GroupNotFound, then ResourceNotFound; a ready record returns its cached value with no callback and no change; an unready one calls the opener once with its stored cfg, caches and returns its value on success, returns its error with no change on failure; nothing else changes |
| Registry.MustGet | registry/registry.go:232-238 | callable only where Get succeeds; a ready record returns its cached value with no callback and no change; an unready one calls the opener once with its stored cfg and returns the opened value; the record then holds that value and keeps its cfg; nothing else changes |
| Registry.Config | registry/group.go:29 | succeeds iff the record exists, with its stored cfg regardless of readiness; GroupNotFound / ResourceNotFound otherwise |
| Registry.MustConfig | registry/group.go:30 | callable only where Config succeeds; returns the stored cfg |
| Registry.Register | registry/registry.go:251-267 | error always nil; true iff the name was absent, then the record is (cfg, not ready), recreating the group if needed; false leaves the whole state unchanged; no callback |
| Registry.Unregister | registry/registry.go:277-297 | GroupNotFound / ResourceNotFound with no change; otherwise removes exactly that record, keeps the group, and calls the closer once iff the record was ready and a closer exists |
| Registry.List | registry/registry.go:303-317 | each resource name of the group exactly once; empty when the group is gone |
| Registry.Ping | registry/group.go:56-60 | never changes the state; calls the opener once with the stored cfg for any present record, ready or not; PingResourceFailed on opener failure; GroupNotFound / ResourceNotFound otherwise |
| Registry.CloseAll | registry/registry.go:336-348 | the closer is called once on each ready record in scope and on nothing else, never with a nil closer; one CloseResourceFailed per failing close, none otherwise |
| Registry.CloseGroup | registry/registry.go:327-352 | closes exactly the ready records of that group, one error per failing close, each matching ErrCloseResourceFailed; removes that group only; a missing group gives no errors and no change |
| Registry.Close | registry/registry.go:81-104 | closes exactly the ready records of every group, one error per failing close, each matching ErrCloseResourceFailed; leaves no groups |
| RegistryLaws.AddGroupIdempotent | registry/manager.go:19-23 | a second AddGroup reports the group existed and changes nothing; the group then resolves |
| RegistryLaws.NewGroupResolves | registry/registry.go:376-392 | the default group's handle resolves and the group holds no resources |
| RegistryLaws.FirstRegistrationWins | registry/group.go:37-40 | after any number of Registers of one absent name, Config returns the first cfg |
| RegistryLaws.StoredConfigSurvivesRegister | registry/registry.go:261-263 | Registers of an already present name leave the state unchanged |
| RegistryLaws.ConfigIndependentOfReadiness | registry/registry_test.go:313-340 | Get and Ping never change what Config reports for any record |
| RegistryLaws.GetFailureKinds | registry/group.go:19-22 | Get fails only with GroupNotFound, ResourceNotFound, or the opener's own error |
| RegistryLaws.GetCaches | registry/group.go:14-17 | after a successful Get, another Get returns the same value, calls no callback and changes nothing, whatever the opener would do |
| RegistryLaws.GetRetriesAfterFailure | registry/open.go:20 | a failed open caches nothing: state unchanged, and the next Get calls the opener again with the same cfg |
| RegistryLaws.OpenerSeesFirstConfig | registry/open.go:16 | the opener receives the cfg of the first Register, not a later one |
| RegistryLaws.SettledGetsAreQuiet | registry/registry.go:192-196 | on a ready or absent record any run of Gets calls no callback and changes nothing |
| RegistryLaws.OpenerCallsBounded | registry/open.go:8 | over any run of Gets, opener calls are at most failures + 1, all for that record with its stored cfg; the k-th call comes from the k-th Get, and every call but the last failed |
| RegistryLaws.PingThenGet | registry/registry_test.go:661-717 | generalises that test (Ping, Get, Get) to Ping, Ping, Get, Get on an unready record: three opener calls, still unready after the Pings, both Gets return the opened value |
| RegistryLaws.PingKeepsCache | registry/group.go:56-58 | Ping of a ready record calls the opener but Get still returns the cached value |
| RegistryLaws.UnregisterForgets | registry/group.go:42-46 | after Unregister, Get fails with ResourceNotFound and Register starts a fresh record with the new cfg |
| RegistryLaws.UnregisterClosesOnlyReady | registry/close.go:9-25 | Unregister calls the closer iff the record is ready and the closer is not nil |
| MapUtil.MapGet | maputil/map.go:20-30 | the flag is exactly key membership; the zero value when absent or without projection, else the projection of the stored value |
| MapUtil.MapBy | maputil/map.go:49-55 | the key set is exactly the keys of the elements, and the map has at most one entry per element |
| MapUtil.MapByLastWins | maputil/map.go:42-55 | each key maps to the value of the last element with that key |
| MapUtil.MapByDistinctKeysSize | maputil/map.go:49-55 | with pairwise distinct keys the map has one entry per element |
| MapUtil.MapGetOfMapBy | maputil/map_test.go:190-212 | a lookup with a projection in a MapBy map gives the projection of the last element with that key |
| MapUtil.MapGetMissingFromMapBy | maputil/map.go:20-25 | a key no element carries is absent from the MapBy map and looks up as (zero, false) |

## Left out

- Locking: the `sync.RWMutex` and the double-checked read-lock/write-lock sequence are left out. Each operation is one atomic transition. `Get` keeps the sequential outcome of its second check under the write lock. Concurrent interleavings are not modelled.
- `context.Context` is passed to the callbacks untouched, so it is not modelled. Cancellation is the callbacks' own business.
- The bodies of the opener and closer are foreign code. Their results are oracle arguments. A closer's result is a function of the record's address, so a closer whose answer depends on call order is modelled only through that function.
- Error message strings and `fmt.Errorf` formatting are left out. A wrapper keeps only the names it formats and what it wraps.
- Reference identity is left out. Errors and resource values compare by value, so two `NewErrGroupNotFound(g)` calls give equal errors, whereas in Go they are two distinct heap objects.
- The order of Go map iteration is unspecified in the source. `List`, `ListGroupNames` and both `Close`s pick elements in an arbitrary order. Their contracts speak of membership and distinctness, not of positions.
- Registry.Close: the source closes group by group in nested loops. The model makes one pass over all (group, name) addresses. The set of closer calls and errors is the same, and only the unspecified order differs.
- `panic` in `MustGroup`, `MustGet` and `MustConfig` is modelled as a precondition that the non-panicking variant succeeds.
- A nil opener is not modelled. The source would panic when it calls one.
- registry/registry.go implements none of `Config`, `MustConfig` or `Ping`. Their models follow registry/group.go and the tests.
- registry/doc.go holds package prose and wiring examples with no logic.
- The tests, benchmarks and concurrency tests serve as evidence only.
- Errors.Is: custom `Is(target) bool` methods on errors from outside the registry are not modelled. Only the wrap chain through `Unwrap() error` and `Unwrap() []error` is followed.
- MapUtil.MapBy / MapUtil.MapGet: keys are assumed to have reflexive equality that does not panic. Float NaN keys are not modelled: Go's `==` is not reflexive on them, so `MapBy` adds a fresh entry per NaN-keyed element and `MapGet` never finds one. Interface keys whose dynamic type is not comparable, on which Go panics, are not modelled either.
