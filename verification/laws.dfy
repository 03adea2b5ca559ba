/**
 * Properties that relate several registry operations: what the Group and
 * Manager interfaces (registry/group.go, registry/manager.go) and the
 * Opener/Closer contracts (registry/open.go, registry/close.go) promise
 * across calls.
 */
module RegistryLaws {
  import opened Wrappers
  import opened Errors
  import opened Registry

  // ---------------------------------------------------------------- groups

  /** Adding a group twice: the second call reports it existed and changes nothing; the group resolves. */
  lemma AddGroupIdempotent<C, T>(m: Manager<C, T>, name: string)
    ensures var s := AddGroup(m, name);
            && AddGroup(s.m, name).res
            && AddGroup(s.m, name).m == s.m
            && Group(s.m, name) == Success(Handle(name))
  {
  }

  /** The handle `NewGroup` returns resolves, and its group starts empty. */
  lemma NewGroupResolves<C, T>(hasCloser: bool)
    ensures var (m, h) := NewGroup<C, T>(hasCloser);
            && Group(m, h.name) == Success(h)
            && forall n :: Config(m, h.name, n) == Failure(NewErrResourceNotFound(h.name, n))
  {
  }

  // ---------------------------------------------------------------- register / config

  /**
   * Registering never overwrites: whatever is registered under (g, n)
   * afterwards, Config reports the configuration of the first registration
   * since the name was last absent.
   */
  lemma {:induction false} FirstRegistrationWins<C, T>(m: Manager<C, T>, g: string, n: string, cfgs: seq<C>)
    requires !Present(m, g, n) && |cfgs| > 0
    ensures Config(RegisterAll(m, g, n, cfgs), g, n) == Success(cfgs[0])
  {
    var m1 := Register(m, g, n, cfgs[0]).m;
    StoredConfigSurvivesRegister(m1, g, n, cfgs[1..]);
  }

  /** A sequence of registrations under one name, in order. */
  ghost function RegisterAll<C, T>(m: Manager<C, T>, g: string, n: string, cfgs: seq<C>): Manager<C, T>
    decreases |cfgs|
  {
    if cfgs == [] then m else RegisterAll(Register(m, g, n, cfgs[0]).m, g, n, cfgs[1..])
  }

  lemma {:induction false} StoredConfigSurvivesRegister<C, T>(m: Manager<C, T>, g: string, n: string, cfgs: seq<C>)
    requires Present(m, g, n)
    ensures RegisterAll(m, g, n, cfgs) == m
    decreases |cfgs|
  {
    if cfgs != [] {
      StoredConfigSurvivesRegister(Register(m, g, n, cfgs[0]).m, g, n, cfgs[1..]);
    }
  }

  /** Config reads the stored configuration regardless of readiness: Get and Ping never change it. */
  lemma ConfigIndependentOfReadiness<C, T>(m: Manager<C, T>, g: string, n: string, g': string, n': string, open: Result<T, Error>)
    ensures Config(Get(m, g', n', open).m, g, n) == Config(m, g, n)
    ensures Config(Ping(m, g', n', open).m, g, n) == Config(m, g, n)
  {
  }

  // ---------------------------------------------------------------- get

  /** The only failures of Get: GroupNotFound, ResourceNotFound, or the opener's own error. */
  lemma GetFailureKinds<C, T>(m: Manager<C, T>, g: string, n: string, open: Result<T, Error>)
    ensures var r := Get(m, g, n, open).res;
            r.Failure? ==>
              || Is(r.error, Sentinel(GroupNotFound))
              || Is(r.error, Sentinel(ResourceNotFound))
              || (open.Failure? && r.error == open.error)
  {
  }

  /**
   * Lazy initialisation: after a successful Get, later Gets return the same
   * value whatever the opener would do, call no callback and change nothing.
   */
  lemma GetCaches<C, T>(m: Manager<C, T>, g: string, n: string, open: Result<T, Error>, open': Result<T, Error>)
    requires Get(m, g, n, open).res.Success?
    ensures var s := Get(m, g, n, open);
            var s' := Get(s.m, g, n, open');
            s'.res == s.res && s'.events == [] && s'.m == s.m
  {
  }

  /** A failed open caches nothing: the next Get calls the opener again with the same configuration. */
  lemma GetRetriesAfterFailure<C, T>(m: Manager<C, T>, g: string, n: string, e: Error, open': Result<T, Error>)
    requires Present(m, g, n) && !m.groups[g][n].Ready()
    ensures var s := Get(m, g, n, Failure(e));
            && s.res == Failure(e) && s.m == m
            && Get(s.m, g, n, open').events == [Opened(g, n, m.groups[g][n].cfg)]
  {
  }

  /** The opener receives the configuration of the first Register, not of later ones. */
  lemma OpenerSeesFirstConfig<C, T>(m: Manager<C, T>, g: string, n: string, c1: C, c2: C, open: Result<T, Error>)
    requires !Present(m, g, n)
    ensures var m2 := Register(Register(m, g, n, c1).m, g, n, c2).m;
            Get(m2, g, n, open).events == [Opened(g, n, c1)]
  {
  }

  /** Gets of one name in a row, the opener yielding outs[i] whenever the i-th Get calls it. */
  ghost function GetRun<C, T>(m: Manager<C, T>, g: string, n: string, outs: seq<Result<T, Error>>): (Manager<C, T>, seq<Event<C, T>>)
    decreases |outs|
  {
    if outs == [] then (m, [])
    else
      var s := Get(m, g, n, outs[0]);
      var rest := GetRun(s.m, g, n, outs[1..]);
      (rest.0, s.events + rest.1)
  }

  /** How many of the outcomes are failures. */
  function Failures<T>(outs: seq<Result<T, Error>>): nat
  {
    if outs == [] then 0 else (if outs[0].Failure? then 1 else 0) + Failures(outs[1..])
  }

  /** Once a record is ready, or absent, repeated Gets call no callback and change nothing. */
  lemma {:induction false} SettledGetsAreQuiet<C, T>(m: Manager<C, T>, g: string, n: string, outs: seq<Result<T, Error>>)
    requires !(Present(m, g, n) && !m.groups[g][n].Ready())
    ensures GetRun(m, g, n, outs) == (m, [])
    decreases |outs|
  {
    if outs != [] {
      var s := Get(m, g, n, outs[0]);
      assert s.m == m && s.events == [];
      SettledGetsAreQuiet(m, g, n, outs[1..]);
      assert s.events + [] == [];
    }
  }

  /**
   * Lazy initialisation, counted: over any run of Gets the opener is called
   * at most once more than it failed, always with the stored configuration;
   * the k-th call is made by the k-th Get, and only the last call may succeed.
   */
  lemma {:induction false} OpenerCallsBounded<C, T>(m: Manager<C, T>, g: string, n: string, outs: seq<Result<T, Error>>)
    ensures |GetRun(m, g, n, outs).1| <= Failures(outs) + 1
    // the calls are made by a prefix of the Gets, and every call but the last failed
    ensures |GetRun(m, g, n, outs).1| <= |outs|
    ensures forall i :: 0 <= i < |GetRun(m, g, n, outs).1| - 1 ==> outs[i].Failure?
    ensures forall ev :: ev in GetRun(m, g, n, outs).1 ==> Present(m, g, n) && ev == Opened(g, n, m.groups[g][n].cfg)
    decreases |outs|
  {
    if outs == [] {
    } else if !(Present(m, g, n) && !m.groups[g][n].Ready()) {
      SettledGetsAreQuiet(m, g, n, outs);
    } else {
      var s := Get(m, g, n, outs[0]);
      if outs[0].Success? {
        SettledGetsAreQuiet(s.m, g, n, outs[1..]);
      } else {
        OpenerCallsBounded(s.m, g, n, outs[1..]);
      }
    }
  }

  // ---------------------------------------------------------------- ping

  /**
   * Ping does not interfere with Get's cache: on a registered, unready name,
   * Ping, Ping, Get, Get calls the opener three times, and the second Get
   * returns what the first stored.
   */
  lemma PingThenGet<C, T>(m: Manager<C, T>, g: string, n: string, p1: Result<T, Error>, p2: Result<T, Error>, v: T, open: Result<T, Error>)
    requires Present(m, g, n) && !m.groups[g][n].Ready()
    ensures var s1 := Ping(m, g, n, p1);
            var s2 := Ping(s1.m, g, n, p2);
            var s3 := Get(s2.m, g, n, Success(v));
            var s4 := Get(s3.m, g, n, open);
            && |s1.events + s2.events + s3.events + s4.events| == 3
            && !s2.m.groups[g][n].Ready()
            && s3.res == Success(v) && s4.res == Success(v)
  {
  }

  /** Ping on a ready record calls the opener but keeps the cached value. */
  lemma PingKeepsCache<C, T>(m: Manager<C, T>, g: string, n: string, p: Result<T, Error>, open: Result<T, Error>)
    requires Present(m, g, n) && m.groups[g][n].Ready()
    ensures var s := Ping(m, g, n, p);
            && |s.events| == 1
            && Get(s.m, g, n, open).res == Success(m.groups[g][n].val.value)
  {
  }

  // ---------------------------------------------------------------- unregister

  /**
   * After Unregister the name is unknown to Get, and registering it again
   * starts a fresh, unready record with the new configuration.
   */
  lemma UnregisterForgets<C, T>(m: Manager<C, T>, g: string, n: string, cfg: C, open: Result<T, Error>)
    requires Present(m, g, n)
    ensures var u := Unregister(m, g, n).m;
            && Get(u, g, n, open).res == Failure(NewErrResourceNotFound(g, n))
            && Register(u, g, n, cfg).res.0
            && Config(Register(u, g, n, cfg).m, g, n) == Success(cfg)
  {
  }

  /** Unregister calls the closer only on a ready record, and never with a nil closer. */
  lemma UnregisterClosesOnlyReady<C, T>(m: Manager<C, T>, g: string, n: string)
    ensures var s := Unregister(m, g, n);
            s.events != [] <==> Present(m, g, n) && m.groups[g][n].Ready() && m.hasCloser
  {
  }
}
