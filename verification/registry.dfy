/**
 * The resource registry (registry/registry.go) as a finite-map state machine.
 *
 * A manager owns `groups`: group name -> resource name -> record. A record
 * holds the configuration it was registered with and, once the opener has
 * succeeded for it, the opened value (`val.Some?` is the source's `ready`
 * flag; the two are only ever set together). The lock is not modelled: each
 * operation is one atomic transition from the state before it to the state
 * after it.
 *
 * The opener and closer are callbacks this model cannot see. An operation
 * that may call the opener takes the opener's outcome as an argument (`open`);
 * a bulk close takes the closer's outcome for each record (`out`). Each call
 * of a callback is reported as an event, so that how often and with what the
 * callbacks are invoked can be stated.
 */
module Registry {
  import opened Wrappers
  import opened Errors

  /** The name of the single group a `NewGroup` registry starts with. */
  const DefaultGroupName: string := "defaultGroup"

  /** One registered resource: `val.Some?` exactly when it is ready. */
  datatype Rec<C, T> = Rec(cfg: C, val: Option<T>) {
    predicate Ready() { val.Some? }
  }

  type Records<C, T> = map<string, Rec<C, T>>

  /**
   * The manager. The opener is fixed for its lifetime and is represented only
   * by the outcomes passed to the operations; of the closer only whether it
   * is nil matters, because a nil closer is never called.
   */
  datatype Manager<C, T> = Manager(groups: map<string, Records<C, T>>, hasCloser: bool)

  /** A group handle: the name it re-resolves against the manager on every call. */
  datatype Handle = Handle(name: string)

  /** One callback invocation, tagged with the record it was made for. */
  datatype Event<C, T> =
    | Opened(group: string, name: string, cfg: C)
    | Closed(group: string, name: string, val: T)

  /** The outcome of one operation: the new state, its result, the callbacks it invoked. */
  datatype Step<C, T, R> = Step(m: Manager<C, T>, res: R, events: seq<Event<C, T>>)

  /** The address of a record: (group name, resource name). */
  type Addr = (string, string)

  predicate Present<C, T>(m: Manager<C, T>, g: string, n: string)
  {
    g in m.groups && n in m.groups[g]
  }

  /**
   * What every single operation keeps: the closer, and for each record that
   * is still there its configuration and, once ready, its value.
   */
  ghost predicate Evolves<C, T>(m: Manager<C, T>, m': Manager<C, T>)
  {
    && m'.hasCloser == m.hasCloser
    && forall g, n :: Present(m, g, n) && Present(m', g, n) ==>
         && m'.groups[g][n].cfg == m.groups[g][n].cfg
         && (m.groups[g][n].Ready() ==> m'.groups[g][n] == m.groups[g][n])
  }

  /** Nothing but the record at (g, n) and the existence of group g changes. */
  ghost predicate SameElsewhere<C, T>(m: Manager<C, T>, m': Manager<C, T>, g: string, n: string)
  {
    && m'.hasCloser == m.hasCloser
    && (forall h :: h != g ==> (h in m.groups <==> h in m'.groups))
    && (forall h :: h != g && h in m.groups && h in m'.groups ==> m'.groups[h] == m.groups[h])
    && (forall k :: k != n ==> (Present(m, g, k) <==> Present(m', g, k)))
    && (forall k :: k != n && Present(m, g, k) && Present(m', g, k) ==> m'.groups[g][k] == m.groups[g][k])
  }

  // ---------------------------------------------------------------- manager

  /** `New`: a manager without groups. */
  function New<C, T>(hasCloser: bool): (m: Manager<C, T>)
    ensures m.groups == map[] && m.hasCloser == hasCloser
  {
    Manager(map[], hasCloser)
  }

  /** `NewGroup`: a manager holding one empty group, and the handle of that group. */
  function NewGroup<C, T>(hasCloser: bool): (r: (Manager<C, T>, Handle))
    ensures r.0.groups.Keys == {DefaultGroupName} && r.1.name == DefaultGroupName
    ensures r.0.groups[DefaultGroupName] == map[] && r.0.hasCloser == hasCloser
  {
    (Manager(map[DefaultGroupName := map[]], hasCloser), Handle(DefaultGroupName))
  }

  /** `manager.Group`: a handle for an existing group, GroupNotFound otherwise. */
  function Group<C, T>(m: Manager<C, T>, name: string): (r: Result<Handle, Error>)
    ensures r.Success? <==> name in m.groups
    ensures r.Success? ==> r.value.name == name
    ensures r.Failure? ==> r.error == NewErrGroupNotFound(name) && Is(r.error, Sentinel(GroupNotFound))
  {
    if name in m.groups then Success(Handle(name)) else Failure(NewErrGroupNotFound(name))
  }

  /** `MustGroup`: only callable where `Group` succeeds (the source panics otherwise). */
  function MustGroup<C, T>(m: Manager<C, T>, name: string): (h: Handle)
    requires Group(m, name).Success?
    ensures h.name == name && h.name in m.groups
  {
    Handle(name)
  }

  /**
   * `AddGroup`: creates an empty group when absent and reports false; reports
   * true and changes nothing when the group already exists.
   */
  function AddGroup<C, T>(m: Manager<C, T>, name: string): (r: Step<C, T, bool>)
    ensures r.res <==> name in m.groups
    ensures r.m.groups.Keys == m.groups.Keys + {name} && r.m.hasCloser == m.hasCloser
    ensures forall h :: h in m.groups ==> r.m.groups[h] == m.groups[h]
    ensures !r.res ==> r.m.groups[name] == map[]
    ensures r.events == []
  {
    if name in m.groups then Step(m, true, [])
    else Step(m.(groups := m.groups[name := map[]]), false, [])
  }

  /** Lists every element of a finite set once, in an unspecified order (Go's map iteration). */
  method Enumerate<K>(s: set<K>) returns (xs: seq<K>)
    ensures forall x :: x in xs <==> x in s
    ensures forall i, j :: 0 <= i < j < |xs| ==> xs[i] != xs[j]
    ensures |xs| == |s|
  {
    xs := [];
    var todo := s;
    while todo != {}
      invariant todo <= s
      invariant forall x :: x in xs <==> x in s && x !in todo
      invariant forall i, j :: 0 <= i < j < |xs| ==> xs[i] != xs[j]
      invariant |xs| + |todo| == |s|
      decreases todo
    {
      var x :| x in todo;
      xs := xs + [x];
      todo := todo - {x};
    }
  }

  /** `ListGroupNames`: each group name exactly once. */
  method ListGroupNames<C, T>(m: Manager<C, T>) returns (names: seq<string>)
    ensures forall g :: g in names <==> g in m.groups
    ensures forall i, j :: 0 <= i < j < |names| ==> names[i] != names[j]
    ensures |names| == |m.groups|
  {
    names := Enumerate(m.groups.Keys);
  }

  // ---------------------------------------------------------------- group

  /**
   * `group.Get`, with the sequential outcome of its double-checked locking:
   * the group, then the name, then readiness are checked, and the opener runs
   * only for a present record that is not ready.
   */
  function Get<C, T>(m: Manager<C, T>, g: string, n: string, open: Result<T, Error>): (r: Step<C, T, Result<T, Error>>)
    ensures g !in m.groups ==> r.res == Failure(NewErrGroupNotFound(g))
    ensures g in m.groups && n !in m.groups[g] ==> r.res == Failure(NewErrResourceNotFound(g, n))
    ensures Present(m, g, n) && m.groups[g][n].Ready() ==> r.res == Success(m.groups[g][n].val.value) && r.m == m
    // the opener is called exactly for a present record that is not ready, with its stored configuration
    ensures r.events == if Present(m, g, n) && !m.groups[g][n].Ready() then [Opened(g, n, m.groups[g][n].cfg)] else []
    // when it is called, its value or its error is returned unchanged
    ensures r.events != [] ==> r.res == open
    ensures r.res.Success? ==> Present(r.m, g, n) && r.m.groups[g][n].val == Some(r.res.value)
    ensures r.res.Failure? ==> r.m == m
    ensures Present(r.m, g, n) <==> Present(m, g, n)
    ensures SameElsewhere(m, r.m, g, n) && Evolves(m, r.m)
  {
    if g !in m.groups then Step(m, Failure(NewErrGroupNotFound(g)), [])
    else if n !in m.groups[g] then Step(m, Failure(NewErrResourceNotFound(g, n)), [])
    else
      var rec := m.groups[g][n];
      if rec.Ready() then Step(m, Success(rec.val.value), [])
      else
        var calls := [Opened(g, n, rec.cfg)];
        match open
        case Failure(e) => Step(m, Failure(e), calls)
        case Success(v) =>
          Step(m.(groups := m.groups[g := m.groups[g][n := Rec(rec.cfg, Some(v))]]), Success(v), calls)
  }

  /** `MustGet`: only callable where `Get` succeeds; the record is then ready with the returned value. */
  function MustGet<C, T>(m: Manager<C, T>, g: string, n: string, open: Result<T, Error>): (r: Step<C, T, T>)
    requires Get(m, g, n, open).res.Success?
    ensures Present(m, g, n) && Present(r.m, g, n) && r.m.groups[g][n].val == Some(r.res)
    ensures m.groups[g][n].cfg == r.m.groups[g][n].cfg
    ensures m.groups[g][n].Ready() ==> r.res == m.groups[g][n].val.value && r.m == m && r.events == []
    ensures !m.groups[g][n].Ready() ==> open == Success(r.res) && r.events == [Opened(g, n, m.groups[g][n].cfg)]
    ensures SameElsewhere(m, r.m, g, n) && Evolves(m, r.m)
  {
    var s := Get(m, g, n, open);
    Step(s.m, s.res.value, s.events)
  }

  /**
   * `group.Config`: the configuration stored for a registered name, whether
   * or not it is ready; GroupNotFound or ResourceNotFound otherwise.
   */
  function Config<C, T>(m: Manager<C, T>, g: string, n: string): (r: Result<C, Error>)
    ensures r.Success? <==> Present(m, g, n)
    ensures r.Success? ==> r.value == m.groups[g][n].cfg
    ensures g !in m.groups ==> r == Failure(NewErrGroupNotFound(g))
    ensures g in m.groups && n !in m.groups[g] ==> r == Failure(NewErrResourceNotFound(g, n))
  {
    if g !in m.groups then Failure(NewErrGroupNotFound(g))
    else if n !in m.groups[g] then Failure(NewErrResourceNotFound(g, n))
    else Success(m.groups[g][n].cfg)
  }

  /** `MustConfig`: only callable where `Config` succeeds. */
  function MustConfig<C, T>(m: Manager<C, T>, g: string, n: string): (c: C)
    requires Config(m, g, n).Success?
    ensures Present(m, g, n) && c == m.groups[g][n].cfg
  {
    m.groups[g][n].cfg
  }

  /**
   * `group.Register`: stores (cfg, not ready) under a new name, re-creating
   * the group if it was removed, and reports true; for a name already present
   * it reports false and changes nothing. The error is always nil and no
   * callback runs.
   */
  function Register<C, T>(m: Manager<C, T>, g: string, n: string, cfg: C): (r: Step<C, T, (bool, Option<Error>)>)
    ensures r.res.1 == None
    ensures r.res.0 <==> !Present(m, g, n)
    ensures Present(r.m, g, n)
    ensures r.res.0 ==> r.m.groups[g][n] == Rec(cfg, None)
    ensures !r.res.0 ==> r.m == m
    ensures r.events == []
    ensures SameElsewhere(m, r.m, g, n) && Evolves(m, r.m)
  {
    var recs := if g in m.groups then m.groups[g] else map[];
    if n in recs then Step(m, (false, None), [])
    else Step(m.(groups := m.groups[g := recs[n := Rec(cfg, None)]]), (true, None), [])
  }

  /**
   * `group.Unregister`: removes the record, first invoking the closer on its
   * value when it is ready and a closer exists. The closer's error is
   * ignored, so its outcome is not an argument. The group itself stays.
   */
  function Unregister<C, T>(m: Manager<C, T>, g: string, n: string): (r: Step<C, T, Option<Error>>)
    ensures g !in m.groups ==> r.res == Some(NewErrGroupNotFound(g)) && r.m == m
    ensures g in m.groups && n !in m.groups[g] ==> r.res == Some(NewErrResourceNotFound(g, n)) && r.m == m
    ensures Present(m, g, n) ==> r.res == None
    ensures !Present(r.m, g, n) && r.m.groups.Keys == m.groups.Keys
    ensures r.events == if Present(m, g, n) && m.groups[g][n].Ready() && m.hasCloser
                        then [Closed(g, n, m.groups[g][n].val.value)] else []
    ensures SameElsewhere(m, r.m, g, n) && Evolves(m, r.m)
  {
    if g !in m.groups then Step(m, Some(NewErrGroupNotFound(g)), [])
    else if n !in m.groups[g] then Step(m, Some(NewErrResourceNotFound(g, n)), [])
    else
      var rec := m.groups[g][n];
      var calls := if rec.Ready() && m.hasCloser then [Closed(g, n, rec.val.value)] else [];
      Step(m.(groups := m.groups[g := m.groups[g] - {n}]), None, calls)
  }

  /** `group.List`: each resource name of the group once; nothing once the group is gone. */
  method List<C, T>(m: Manager<C, T>, g: string) returns (names: seq<string>)
    ensures g !in m.groups ==> names == []
    ensures g in m.groups ==> (forall n :: n in names <==> n in m.groups[g]) && |names| == |m.groups[g]|
    ensures forall i, j :: 0 <= i < j < |names| ==> names[i] != names[j]
  {
    if g !in m.groups {
      return [];
    }
    names := Enumerate(m.groups[g].Keys);
  }

  /**
   * `group.Ping`: a trial open of a registered resource. The opener is called
   * every time, readiness is ignored, and its result is never stored; an
   * opener failure becomes PingResourceFailed.
   */
  function Ping<C, T>(m: Manager<C, T>, g: string, n: string, open: Result<T, Error>): (r: Step<C, T, Option<Error>>)
    ensures r.m == m
    ensures g !in m.groups ==> r.res == Some(NewErrGroupNotFound(g))
    ensures g in m.groups && n !in m.groups[g] ==> r.res == Some(NewErrResourceNotFound(g, n))
    ensures r.events == if Present(m, g, n) then [Opened(g, n, m.groups[g][n].cfg)] else []
    ensures Present(m, g, n) ==> (r.res.None? <==> open.Success?)
    ensures Present(m, g, n) && open.Failure? ==>
              r.res == Some(NewErrPingResourceFailed(g, n, open.error)) && Is(r.res.value, Sentinel(PingResourceFailed))
  {
    if g !in m.groups then Step(m, Some(NewErrGroupNotFound(g)), [])
    else if n !in m.groups[g] then Step(m, Some(NewErrResourceNotFound(g, n)), [])
    else
      var calls := [Opened(g, n, m.groups[g][n].cfg)];
      match open
      case Failure(e) => Step(m, Some(NewErrPingResourceFailed(g, n, e)), calls)
      case Success(_) => Step(m, None, calls)
  }

  // ---------------------------------------------------------------- teardown

  /** The records of the groups in `scope`. */
  function Addrs<C, T>(gs: map<string, Records<C, T>>, scope: set<string>): (r: set<Addr>)
    ensures forall a :: a in r <==> a.0 in scope && a.0 in gs && a.1 in gs[a.0]
  {
    set g, n | g in gs && g in scope && n in gs[g] :: (g, n)
  }

  /** A record the closer is invoked on: it is ready and the closer is not nil. */
  predicate Closable<C, T>(gs: map<string, Records<C, T>>, a: Addr, hasCloser: bool)
  {
    a.0 in gs && a.1 in gs[a.0] && gs[a.0][a.1].Ready() && hasCloser
  }

  /** A record whose close fails: the closer returns an error for it. */
  predicate CloseFails<C, T>(gs: map<string, Records<C, T>>, a: Addr, hasCloser: bool, out: (string, string) -> Option<Error>)
  {
    Closable(gs, a, hasCloser) && out(a.0, a.1).Some?
  }

  function CloseEvent<C, T>(gs: map<string, Records<C, T>>, a: Addr): Event<C, T>
    requires a.0 in gs && a.1 in gs[a.0] && gs[a.0][a.1].Ready()
  {
    Closed(a.0, a.1, gs[a.0][a.1].val.value)
  }

  function CloseError(a: Addr, out: (string, string) -> Option<Error>): Error
    requires out(a.0, a.1).Some?
  {
    NewErrCloseResourceFailed(a.0, a.1, out(a.0, a.1).value)
  }

  /** The closer was invoked once on each closable record in `scope`, and on nothing else. */
  ghost predicate ClosesExactly<C, T>(gs: map<string, Records<C, T>>, scope: set<Addr>, hasCloser: bool, events: seq<Event<C, T>>)
  {
    && (forall i :: 0 <= i < |events| ==>
          && events[i].Closed?
          && (events[i].group, events[i].name) in scope
          && Closable(gs, (events[i].group, events[i].name), hasCloser)
          && events[i] == CloseEvent(gs, (events[i].group, events[i].name)))
    && (forall a :: a in scope && Closable(gs, a, hasCloser) ==> CloseEvent(gs, a) in events)
    && (forall i, j :: 0 <= i < j < |events| ==> events[i] != events[j])
  }

  /** One CloseResourceFailed for each failing close in `scope`, and nothing else. */
  ghost predicate ReportsExactly<C, T>(gs: map<string, Records<C, T>>, scope: set<Addr>, hasCloser: bool,
                                       out: (string, string) -> Option<Error>, errs: seq<Error>)
  {
    && (forall i :: 0 <= i < |errs| ==>
          && errs[i].Wrapped? && errs[i].msg.CloseFailed?
          && (errs[i].msg.group, errs[i].msg.resource) in scope
          && CloseFails(gs, (errs[i].msg.group, errs[i].msg.resource), hasCloser, out)
          && errs[i] == CloseError((errs[i].msg.group, errs[i].msg.resource), out))
    && (forall a :: a in scope && CloseFails(gs, a, hasCloser, out) ==> CloseError(a, out) in errs)
    && (forall i, j :: 0 <= i < j < |errs| ==> errs[i] != errs[j])
  }

  /**
   * The close pass shared by group and manager `Close`: visits every record
   * in `scope` once, in an unspecified order, skips records that are not
   * ready and a nil closer, and collects one wrapped error per failing close
   * without stopping.
   */
  method CloseAll<C, T>(gs: map<string, Records<C, T>>, scope: set<Addr>, hasCloser: bool,
                        out: (string, string) -> Option<Error>)
    returns (errs: seq<Error>, events: seq<Event<C, T>>)
    ensures ClosesExactly(gs, scope, hasCloser, events)
    ensures ReportsExactly(gs, scope, hasCloser, out, errs)
  {
    errs, events := [], [];
    var todo, done := scope, {};
    while todo != {}
      invariant todo + done == scope && todo !! done
      invariant ClosesExactly(gs, done, hasCloser, events)
      invariant ReportsExactly(gs, done, hasCloser, out, errs)
      decreases todo
    {
      var a :| a in todo;
      if Closable(gs, a, hasCloser) {
        events := events + [CloseEvent(gs, a)];
        if out(a.0, a.1).Some? {
          errs := errs + [CloseError(a, out)];
        }
      }
      todo, done := todo - {a}, done + {a};
    }
  }

  /**
   * `group.Close`: closes the ready records of group g only, then removes the
   * group; every other group is untouched. A missing group gives no errors
   * and no change.
   */
  method CloseGroup<C, T>(m: Manager<C, T>, g: string, out: (string, string) -> Option<Error>)
    returns (m': Manager<C, T>, errs: seq<Error>, events: seq<Event<C, T>>)
    ensures g !in m.groups ==> m' == m && errs == [] && events == []
    ensures m'.groups == m.groups - {g} && m'.hasCloser == m.hasCloser
    ensures ClosesExactly(m.groups, Addrs(m.groups, {g}), m.hasCloser, events)
    ensures ReportsExactly(m.groups, Addrs(m.groups, {g}), m.hasCloser, out, errs)
    ensures forall e :: e in errs ==> Is(e, Sentinel(CloseResourceFailed))
  {
    if g !in m.groups {
      return m, [], [];
    }
    errs, events := CloseAll(m.groups, Addrs(m.groups, {g}), m.hasCloser, out);
    m' := m.(groups := m.groups - {g});
  }

  /**
   * `manager.Close`: closes the ready records of every group, collecting one
   * error per failing close, and leaves the manager without groups.
   */
  method Close<C, T>(m: Manager<C, T>, out: (string, string) -> Option<Error>)
    returns (m': Manager<C, T>, errs: seq<Error>, events: seq<Event<C, T>>)
    ensures m'.groups == map[] && m'.hasCloser == m.hasCloser
    ensures ClosesExactly(m.groups, Addrs(m.groups, m.groups.Keys), m.hasCloser, events)
    ensures ReportsExactly(m.groups, Addrs(m.groups, m.groups.Keys), m.hasCloser, out, errs)
    ensures forall e :: e in errs ==> Is(e, Sentinel(CloseResourceFailed))
  {
    errs, events := CloseAll(m.groups, Addrs(m.groups, m.groups.Keys), m.hasCloser, out);
    m' := m.(groups := map[]);
  }
}
