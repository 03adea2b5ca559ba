/**
 * The registry's error taxonomy (registry/error.go): four sentinel errors,
 * contextual wrappers built with `%w`, and Go's `errors.Is` as a walk of the
 * wrap chain. Message text is not modelled; a wrapper keeps the names it was
 * formatted with so that two wrappers for different resources differ.
 */
module Errors {

  /** The four sentinels. Distinct constructors: no sentinel is another. */
  datatype Kind = GroupNotFound | ResourceNotFound | CloseResourceFailed | PingResourceFailed

  /** The formatting context of a wrapper (which format string, which names). */
  datatype Message =
    | GroupMissing(group: string)
    | ResourceMissing(group: string, resource: string)
    | CloseFailed(group: string, resource: string)
    | PingFailed(group: string, resource: string)

  /**
   * An error value: a sentinel, an error made outside the registry (by an
   * opener or closer; `id` stands for its identity), or a wrapper whose
   * `wrapped` list holds every error it wraps with `%w`, in order.
   */
  datatype Error =
    | Sentinel(kind: Kind)
    | External(id: nat)
    | Wrapped(msg: Message, wrapped: seq<Error>)

  /**
   * `errors.Is(e, target)`: target is e itself or is in the chain of something
   * e wraps. An error that wraps nothing matches only itself.
   */
  predicate Is(e: Error, target: Error): (r: bool)
    ensures e == target ==> r
    ensures e.Wrapped? && target in e.wrapped ==> r
    ensures !e.Wrapped? ==> (r <==> e == target)
    decreases e
  {
    e == target || (e.Wrapped? && exists w :: w in e.wrapped && Is(w, target))
  }

  /** The chain of a wrapper around one error: the wrapper, then that error's chain. */
  lemma ChainOfWrapper(msg: Message, w: Error, t: Error)
    ensures Is(Wrapped(msg, [w]), t) <==> Wrapped(msg, [w]) == t || Is(w, t)
  {
  }

  /** The chain of a wrapper around two errors: the wrapper, then both chains. */
  lemma ChainOfWrapper2(msg: Message, w0: Error, w1: Error, t: Error)
    ensures Is(Wrapped(msg, [w0, w1]), t) <==> Wrapped(msg, [w0, w1]) == t || Is(w0, t) || Is(w1, t)
  {
  }

  function NewErrGroupNotFound(group: string): (e: Error)
    ensures forall t :: Is(e, t) <==> t == e || t == Sentinel(GroupNotFound)
  {
    var e := Wrapped(GroupMissing(group), [Sentinel(GroupNotFound)]);
    assert forall t :: Is(e, t) <==> e == t || Is(e.wrapped[0], t) by {
      forall t { ChainOfWrapper(e.msg, e.wrapped[0], t); }
    }
    e
  }

  function NewErrResourceNotFound(group: string, resource: string): (e: Error)
    ensures forall t :: Is(e, t) <==> t == e || t == Sentinel(ResourceNotFound)
  {
    var e := Wrapped(ResourceMissing(group, resource), [Sentinel(ResourceNotFound)]);
    assert forall t :: Is(e, t) <==> e == t || Is(e.wrapped[0], t) by {
      forall t { ChainOfWrapper(e.msg, e.wrapped[0], t); }
    }
    e
  }

  /** Wraps both the sentinel and the closer's own error (two `%w` verbs). */
  function NewErrCloseResourceFailed(group: string, resource: string, cause: Error): (e: Error)
    ensures forall t :: Is(e, t) <==> t == e || t == Sentinel(CloseResourceFailed) || Is(cause, t)
  {
    var e := Wrapped(CloseFailed(group, resource), [Sentinel(CloseResourceFailed), cause]);
    assert forall t :: Is(e, t) <==> e == t || Is(e.wrapped[0], t) || Is(e.wrapped[1], t) by {
      forall t { ChainOfWrapper2(e.msg, e.wrapped[0], e.wrapped[1], t); }
    }
    e
  }

  /** Wraps only the sentinel: the `cause` argument is accepted and dropped. */
  function NewErrPingResourceFailed(group: string, resource: string, cause: Error): (e: Error)
    ensures forall t :: Is(e, t) <==> t == e || t == Sentinel(PingResourceFailed)
  {
    var e := Wrapped(PingFailed(group, resource), [Sentinel(PingResourceFailed)]);
    assert forall t :: Is(e, t) <==> e == t || Is(e.wrapped[0], t) by {
      forall t { ChainOfWrapper(e.msg, e.wrapped[0], t); }
    }
    e
  }

  /** The kind of sentinel an error's chain reaches, if any: at most one for the registry's wrappers. */
  lemma WrappersMatchOneSentinel(g: string, r: string, cause: Error, k: Kind)
    ensures Is(NewErrGroupNotFound(g), Sentinel(k)) <==> k == GroupNotFound
    ensures Is(NewErrResourceNotFound(g, r), Sentinel(k)) <==> k == ResourceNotFound
    ensures Is(NewErrPingResourceFailed(g, r, cause), Sentinel(k)) <==> k == PingResourceFailed
    ensures cause.External? ==>
              (Is(NewErrCloseResourceFailed(g, r, cause), Sentinel(k)) <==> k == CloseResourceFailed)
  {
  }

  /** A ping failure does not let callers match the opener's error. */
  lemma PingFailureDropsCause(g: string, r: string, cause: Error)
    requires cause.External?
    ensures !Is(NewErrPingResourceFailed(g, r, cause), cause)
    ensures Is(NewErrCloseResourceFailed(g, r, cause), cause)
  {
  }
}
