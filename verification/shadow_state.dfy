/** The per-axis shadow controller (`useShadowGroupState`): the displayed
    flags, the cache of the last computed flags, and the update step
    (`doUpdate`) that runs on mount, on every scroll of the node and on every
    resize of the window. Setter calls are returned as events and applied
    synchronously to the displayed flags. */
module ShadowState {
  import opened Wrappers
  import opened Geometry

  /** One controller's state: the flags it displays (`showStart`, `showEnd`)
      and the flags cached by its last update (`cachedStateRef`). */
  datatype State = State(shown: Flags, cache: Flags)

  /** A controller as first mounted: nothing displayed, nothing cached. */
  const Initial := State(NoFlags, NoFlags)

  /** A call of one of the two state setters, with the value it writes. */
  datatype Setter = SetShowStart(value: bool) | SetShowEnd(value: bool)

  /** The outcome of one update: the state after it and the setter calls it issued. */
  datatype Step = Step(next: State, calls: seq<Setter>)

  /** The displayed flags after one setter call. */
  function Apply(shown: Flags, c: Setter): Flags
  {
    match c
    case SetShowStart(v) => shown.(canShowStart := v)
    case SetShowEnd(v) => shown.(canShowEnd := v)
  }

  /** The displayed flags after a sequence of setter calls, in order. */
  function ApplyAll(shown: Flags, calls: seq<Setter>): Flags
    decreases |calls|
  {
    if calls == [] then shown else ApplyAll(Apply(shown, calls[0]), calls[1..])
  }

  /** Setter `c` writes, for its flag, the value `flags` holds. */
  predicate Agrees(c: Setter, flags: Flags)
  {
    match c
    case SetShowStart(v) => v == flags.canShowStart
    case SetShowEnd(v) => v == flags.canShowEnd
  }

  /** How many of the two flags differ between `a` and `b`. */
  function FlagDiff(a: Flags, b: Flags): nat
  {
    (if a.canShowStart != b.canShowStart then 1 else 0) +
    (if a.canShowEnd != b.canShowEnd then 1 else 0)
  }

  /** The display agrees with the cache. */
  predicate Coherent(s: State)
  {
    s.shown == s.cache
  }

  /** `doUpdate`: with no node nothing happens; otherwise the fresh flags are
      computed, a setter is called for each flag whose fresh value differs
      from the cached one (start before end), and the cache is overwritten. */
  function DoUpdate(s: State, node: Option<Node>, o: Orientation): (r: Step)
    ensures node.None? ==> r == Step(s, [])
    ensures node.Some? ==> r.next.cache == ComputeFlags(node.value, o)
    ensures r.next.shown == ApplyAll(s.shown, r.calls)
    ensures forall c | c in r.calls :: !Agrees(c, s.cache)
    ensures node.Some? ==> forall c | c in r.calls :: Agrees(c, ComputeFlags(node.value, o))
    ensures node.Some? ==> |r.calls| == FlagDiff(s.cache, ComputeFlags(node.value, o))
    ensures node.Some? ==>
      (SetShowStart(ComputeFlags(node.value, o).canShowStart) in r.calls <==>
        ComputeFlags(node.value, o).canShowStart != s.cache.canShowStart)
    ensures node.Some? ==>
      (SetShowEnd(ComputeFlags(node.value, o).canShowEnd) in r.calls <==>
        ComputeFlags(node.value, o).canShowEnd != s.cache.canShowEnd)
    ensures forall i, j | 0 <= i < j < |r.calls| :: r.calls[i].SetShowStart? && r.calls[j].SetShowEnd?
  {
    match node
    case None => Step(s, [])
    case Some(n) =>
      var computed := ComputeFlags(n, o);
      var startCalls :=
        if computed.canShowStart != s.cache.canShowStart then [SetShowStart(computed.canShowStart)] else [];
      var endCalls :=
        if computed.canShowEnd != s.cache.canShowEnd then [SetShowEnd(computed.canShowEnd)] else [];
      var calls := startCalls + endCalls;
      Step(State(ApplyAll(s.shown, calls), computed), calls)
  }

  /** From a coherent state an update keeps the display equal to the cache,
      and with a node present the display then shows the fresh flags. */
  lemma UpdateKeepsCoherent(s: State, node: Option<Node>, o: Orientation)
    requires Coherent(s)
    ensures Coherent(DoUpdate(s, node, o).next)
    ensures node.Some? ==> DoUpdate(s, node, o).next.shown == ComputeFlags(node.value, o)
  {
    if node.Some? {
      var computed := ComputeFlags(node.value, o);
      var calls := DoUpdate(s, node, o).calls;
      if |calls| == 2 {
        var mid := Apply(s.shown, calls[0]);
        assert calls[1..][0] == calls[1] && calls[1..][1..] == [];
        assert ApplyAll(s.shown, calls) == ApplyAll(mid, calls[1..]);
        assert ApplyAll(mid, calls[1..]) == Apply(mid, calls[1]);
      } else if |calls| == 1 {
        assert calls[1..] == [];
        assert ApplyAll(s.shown, calls) == Apply(s.shown, calls[0]);
      }
    }
  }

  /** From a coherent state every setter call changes what is displayed: no
      redundant re-render is requested. */
  lemma UpdateCallsChangeDisplay(s: State, node: Option<Node>, o: Orientation)
    requires Coherent(s)
    ensures forall c | c in DoUpdate(s, node, o).calls :: !Agrees(c, s.shown)
  {
  }

  /** A second update with unchanged geometry issues no setter call and
      changes nothing, whatever state the first started from. */
  lemma UpdateIdempotent(s: State, node: Option<Node>, o: Orientation)
    ensures DoUpdate(DoUpdate(s, node, o).next, node, o).calls == []
    ensures DoUpdate(DoUpdate(s, node, o).next, node, o).next == DoUpdate(s, node, o).next
  {
  }

  /** The fresh flags of the triggers that found a node, in order. Each trigger
      is the value of the node reference when it fired. */
  function Observed(events: seq<Option<Node>>, o: Orientation): seq<Flags>
  {
    if events == [] then []
    else
      var prior := Observed(events[..|events| - 1], o);
      match events[|events| - 1]
      case None => prior
      case Some(n) => prior + [ComputeFlags(n, o)]
  }

  /** The last of `fs`, or `d` when there is none. */
  function LastOr(d: Flags, fs: seq<Flags>): Flags
  {
    if fs == [] then d else fs[|fs| - 1]
  }

  /** How many single-flag changes the sequence `fs` makes, starting from `prev`. */
  function Changes(prev: Flags, fs: seq<Flags>): nat
  {
    if fs == [] then 0
    else
      var prior := fs[..|fs| - 1];
      Changes(prev, prior) + FlagDiff(LastOr(prev, prior), fs[|fs| - 1])
  }

  /** Applying `a` then `b` is applying `a + b`. */
  lemma {:induction false} ApplyAllAppend(shown: Flags, a: seq<Setter>, b: seq<Setter>)
    ensures ApplyAll(ApplyAll(shown, a), b) == ApplyAll(shown, a + b)
    decreases |a|
  {
    if a != [] {
      assert (a + b)[0] == a[0] && (a + b)[1..] == a[1..] + b;
      ApplyAllAppend(Apply(shown, a[0]), a[1..], b);
    } else {
      assert a + b == b;
    }
  }

  /** Running the update for each trigger in turn, collecting the setter
      calls: what the mount effect and the scroll and resize listeners do.
      The display changes only through the calls issued, and triggers that
      all find no node change nothing. */
  function Run(s: State, events: seq<Option<Node>>, o: Orientation): (r: Step)
    ensures r.next.shown == ApplyAll(s.shown, r.calls)
    ensures (forall i | 0 <= i < |events| :: events[i].None?) ==> r == Step(s, [])
  {
    if events == [] then Step(s, [])
    else
      var before := Run(s, events[..|events| - 1], o);
      var last := DoUpdate(before.next, events[|events| - 1], o);
      ApplyAllAppend(s.shown, before.calls, last.calls);
      Step(last.next, before.calls + last.calls)
  }

  /** After a run the cache holds the flags of the last trigger that found a
      node, or what it held before if none did. */
  lemma {:induction false} RunCache(s: State, events: seq<Option<Node>>, o: Orientation)
    ensures Run(s, events, o).next.cache == LastOr(s.cache, Observed(events, o))
  {
    if events != [] {
      var prefix := events[..|events| - 1];
      RunCache(s, prefix, o);
    }
  }

  /** A run from a coherent state ends coherent. */
  lemma {:induction false} RunCoherent(s: State, events: seq<Option<Node>>, o: Orientation)
    requires Coherent(s)
    ensures Coherent(Run(s, events, o).next)
  {
    if events != [] {
      var prefix := events[..|events| - 1];
      RunCoherent(s, prefix, o);
      UpdateKeepsCoherent(Run(s, prefix, o).next, events[|events| - 1], o);
    }
  }

  /** A run issues exactly one setter call per single-flag change in the
      flags it observes: no more, no fewer. */
  lemma {:induction false} RunCallCount(s: State, events: seq<Option<Node>>, o: Orientation)
    ensures |Run(s, events, o).calls| == Changes(s.cache, Observed(events, o))
  {
    if events != [] {
      var prefix := events[..|events| - 1];
      RunCallCount(s, prefix, o);
      RunCache(s, prefix, o);
      var obs := Observed(prefix, o);
      match events[|events| - 1]
      case None =>
      case Some(n) =>
        var fs := obs + [ComputeFlags(n, o)];
        assert fs[..|fs| - 1] == obs;
    }
  }

  /** Every state reachable from the initial one by updates is coherent, and
      displays the flags of the last trigger that found a node (both off if
      none has). */
  lemma {:induction false} ReachableShowsLatest(events: seq<Option<Node>>, o: Orientation)
    ensures Coherent(Run(Initial, events, o).next)
    ensures Run(Initial, events, o).next.shown == LastOr(NoFlags, Observed(events, o))
  {
    RunCoherent(Initial, events, o);
    RunCache(Initial, events, o);
  }

  /** Repeating the last trigger of a run, with unchanged geometry, issues no
      further setter call and leaves the state as it was. */
  lemma RepeatedTriggerIsSilent(s: State, events: seq<Option<Node>>, o: Orientation)
    requires events != []
    ensures Run(s, events + [events[|events| - 1]], o) == Run(s, events, o)
  {
    var e := events[|events| - 1];
    var longer := events + [e];
    assert longer[..|longer| - 1] == events;
    var prefix := events[..|events| - 1];
    UpdateIdempotent(Run(s, prefix, o).next, e, o);
    assert Run(s, events, o).calls + [] == Run(s, events, o).calls;
  }

  /** The event loop of one controller, the loop form of `Run` from the
      initial state: every trigger invokes the update step. Returns the final
      displayed and cached flags and the number of setter calls issued. */
  method ProcessTriggers(events: seq<Option<Node>>, o: Orientation)
    returns (shown: Flags, cache: Flags, calls: nat)
    ensures shown == cache
    ensures cache == LastOr(NoFlags, Observed(events, o))
    ensures calls == Changes(NoFlags, Observed(events, o))
    ensures State(shown, cache) == Run(Initial, events, o).next
    ensures calls == |Run(Initial, events, o).calls|
  {
    var st := Initial;
    calls := 0;
    var i := 0;
    while i < |events|
      invariant 0 <= i <= |events|
      invariant Coherent(st)
      invariant st.cache == LastOr(NoFlags, Observed(events[..i], o))
      invariant calls == Changes(NoFlags, Observed(events[..i], o))
      invariant st == Run(Initial, events[..i], o).next
      invariant calls == |Run(Initial, events[..i], o).calls|
    {
      var step := DoUpdate(st, events[i], o);
      UpdateKeepsCoherent(st, events[i], o);
      assert events[..i + 1][..i] == events[..i];
      var obs := Observed(events[..i], o);
      match events[i] {
        case None =>
        case Some(n) =>
          var fs := obs + [ComputeFlags(n, o)];
          assert fs[..|fs| - 1] == obs;
      }
      calls := calls + |step.calls|;
      st := step.next;
      i := i + 1;
    }
    assert events[..i] == events;
    shown, cache := st.shown, st.cache;
  }
}
