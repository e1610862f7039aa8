/**
 * `useSource`: the hook a list view uses to keep one query's answer. The
 * value it shows starts as the source's cached answer and is replaced by the
 * answer of a refresh (`upList`), which runs on first render when nothing is
 * cached, whenever the query changes, and on every create, delete, update or
 * custom-parameter event of the source.
 *
 * Concurrent refreshes are coordinated by a map from query key to
 * `{active, actual}`: a refresh for a key already loading issues no second
 * list call, starting a refresh makes its key the only actual one, and an
 * answer is shown only if its key is still actual when it arrives.
 *
 * React's state, effects and memoisation are replaced by the explicit steps
 * they perform: construction, a refresh, an answer arriving, the subscribing
 * effect, the first-render effect, the unsubscribing cleanup and unmount.
 */
module UseSource {
  import opened Wrappers
  import opened Source
  import opened Emitter

  // ---------------------------------------------------------------------------
  // derived state

  /** `list`: the loaded answer's records, or none. */
  function ListOf(loaded: Body): (list: seq<Record>)
    ensures loaded.Listing? ==> list == loaded.list.data
    ensures !loaded.Listing? ==> list == []
  {
    if loaded.Listing? then loaded.list.data else []
  }

  /** `meta`: the loaded answer's meta, or `{}`. */
  function MetaOf(loaded: Body): (meta: Meta)
    ensures loaded.Listing? ==> meta == loaded.list.meta
    ensures !loaded.Listing? ==> meta.hasNextPage.None?
  {
    if loaded.Listing? then loaded.list.meta else Meta(None)
  }

  /** `hasData`: the loaded answer has a `data` member. */
  predicate HasData(loaded: Body)
  {
    loaded.Listing?
  }

  /** `error`: the loaded answer when its `errorCode` is truthy, `{errorCode: OK}` otherwise. */
  function ErrorOf(loaded: Body): (error: Body)
    ensures CarriesError(loaded) ==> error == loaded
    ensures !CarriesError(loaded) ==> error == StatusBody(OkStatus())
  {
    if CarriesError(loaded) then loaded else StatusBody(OkStatus())
  }

  /** The first-render test: neither data nor an error is loaded (`error.errorCode === OK`). */
  predicate NeedsInitialRefresh(loaded: Body)
  {
    !HasData(loaded) && ErrorOf(loaded) == StatusBody(OkStatus())
  }

  /** The derived values agree: an answer with data shows no error, and without data the list is empty. */
  lemma DerivedStateConsistent(loaded: Body)
    ensures HasData(loaded) ==> ErrorOf(loaded) == StatusBody(OkStatus())
    ensures !HasData(loaded) ==> ListOf(loaded) == [] && MetaOf(loaded) == Meta(None)
    ensures NeedsInitialRefresh(loaded) <==> !HasData(loaded) && !CarriesError(loaded)
  {
  }

  /** The key `upList` tracks; unlike the list call it keeps a missing filter missing. */
  function ProcessKey(filter: Option<seq<FilterNode>>, pagination: Pagination, sorting: Option<seq<SortEntry>>): QueryKey
  {
    Key(filter, Some(pagination), sorting)
  }

  /** The value first shown: the source's cached answer to the query, with a missing filter read as `[]`. */
  function InitialLoaded(cache: Cache, filter: Option<seq<FilterNode>>, pagination: Pagination,
                         sorting: Option<seq<SortEntry>>): Body
  {
    GetSerializationData(cache, filter.GetOr([]), pagination, sorting)
  }

  /**
   * Built over a source seeded with a bundle: a view of the bundle's own query
   * starts without a refresh when the bundle holds a list or an error, and
   * every other view starts with one.
   */
  lemma InitialRefreshFromBundle(b: Bundle, filter: Option<seq<FilterNode>>, pagination: Pagination,
                                 sorting: Option<seq<SortEntry>>)
    ensures var answers := b.filter == Some(filter.GetOr([])) && b.pagination == Some(pagination) && b.sorting == sorting;
            NeedsInitialRefresh(InitialLoaded(SeedCache(Some(b)), filter, pagination, sorting))
            <==> !answers || (!b.data.Listing? && !CarriesError(b.data))
  {
    SeededLookup(b, filter.GetOr([]), pagination, sorting);
  }

  // ---------------------------------------------------------------------------
  // the refresh coordinator as a state machine

  /** `{active, actual}`: a list call for the key is pending; its answer may still be shown. */
  datatype Process = Process(active: bool, actual: bool)

  type Processes = map<QueryKey, Process>

  /** Every tracked key loses `actual`. */
  function ClearActual(ps: Processes): (r: Processes)
    ensures r.Keys == ps.Keys
    ensures forall k :: k in r ==> r[k] == Process(ps[k].active, false)
  {
    map k | k in ps :: Process(ps[k].active, false)
  }

  /**
   * `upList` as written, up to its list call: a key already active is left
   * alone; otherwise every key loses `actual` and this key becomes active and
   * actual. The flag says whether the list call is made.
   */
  function StartAsWritten(ps: Processes, key: QueryKey): (r: (Processes, bool))
    ensures r.0.Keys == ps.Keys + {key}
    ensures r.1 <==> !(key in ps && ps[key].active)
    ensures !r.1 ==> r.0 == ps
    ensures r.1 ==> forall k :: k in r.0 ==> (r.0[k].actual <==> k == key)
  {
    if key in ps && ps[key].active then (ps, false)
    else (ClearActual(ps)[key := Process(true, true)], true)
  }

  /**
   * `upList` with the stale-answer defect corrected: a key already active
   * still issues no second list call, but it becomes the only actual key
   * again, since its pending answer is the one now wanted.
   */
  function Start(ps: Processes, key: QueryKey): (r: (Processes, bool))
    ensures r.0.Keys == ps.Keys + {key}
    ensures forall k :: k in r.0 ==> (r.0[k].actual <==> k == key)
    ensures forall k :: k in r.0 ==> r.0[k].active == (k == key || ps[k].active)
    ensures r.1 <==> !(key in ps && ps[key].active)
  {
    (ClearActual(ps)[key := Process(true, true)], !(key in ps && ps[key].active))
  }

  /** The two agree except on a key that is loading but no longer actual. */
  lemma StartAgreesWithWritten(ps: Processes, key: QueryKey)
    requires !(key in ps && ps[key].active && !ps[key].actual)
    requires forall k :: k in ps && ps[k].actual ==> k == key
    ensures Start(ps, key) == StartAsWritten(ps, key)
  {
    if key in ps && ps[key].active {
      assert Start(ps, key).0 == ps;
    }
  }

  /**
   * An answer arrives: the key is no longer active, and the answer replaces
   * the loaded value exactly when the key is still actual.
   */
  function Complete(ps: Processes, key: QueryKey, result: Body, loaded: Body): (r: (Processes, Body))
    requires key in ps
    ensures r.0.Keys == ps.Keys && r.0[key] == Process(false, ps[key].actual)
    ensures forall k :: k in ps && k != key ==> r.0[k] == ps[k]
    ensures ps[key].actual ==> r.1 == result
    ensures !ps[key].actual ==> r.1 == loaded
  {
    (ps[key := Process(false, ps[key].actual)], if ps[key].actual then result else loaded)
  }

  /** What the hook goes through: a refresh, an answer, or unmount. */
  datatype Step = Refresh(key: QueryKey) | Resolve(key: QueryKey, result: Body) | Unmount

  datatype Hook = Hook(processes: Processes, loaded: Body)

  function StepWith(h: Hook, step: Step, asWritten: bool): (r: Hook)
    ensures r.processes.Keys == h.processes.Keys + (if step.Refresh? then {step.key} else {})
    ensures !step.Resolve? ==> r.loaded == h.loaded
    ensures step.Resolve? && !Shown(h, step.key) ==> r.loaded == h.loaded
    ensures step.Unmount? ==> forall k :: k in r.processes ==> !r.processes[k].actual
  {
    match step
    case Refresh(key) =>
      Hook((if asWritten then StartAsWritten(h.processes, key) else Start(h.processes, key)).0, h.loaded)
    case Resolve(key, result) =>
      if key in h.processes then
        var c := Complete(h.processes, key, result, h.loaded);
        Hook(c.0, c.1)
      else h
    case Unmount => Hook(ClearActual(h.processes), h.loaded)
  }

  /** The hook after the steps, in order. */
  function Run(h: Hook, steps: seq<Step>, asWritten: bool): (r: Hook)
    ensures h.processes.Keys <= r.processes.Keys
    ensures (forall i :: 0 <= i < |steps| ==> !steps[i].Resolve?) ==> r.loaded == h.loaded
  {
    if |steps| == 0 then h
    else StepWith(Run(h, steps[..|steps| - 1], asWritten), steps[|steps| - 1], asWritten)
  }

  /** The query most recently asked for, unless the view has since unmounted. */
  function Latest(steps: seq<Step>): Option<QueryKey>
  {
    if |steps| == 0 then None
    else match steps[|steps| - 1]
      case Refresh(key) => Some(key)
      case Unmount => None
      case Resolve(_, _) => Latest(steps[..|steps| - 1])
  }

  /** An answer for `key` would be shown in hook state `h`. */
  predicate Shown(h: Hook, key: QueryKey)
  {
    key in h.processes && h.processes[key].actual
  }

  /** Corrected: a tracked key can be actual only if it is the latest query. */
  lemma {:induction false} OnlyLatestIsActual(h: Hook, steps: seq<Step>, key: QueryKey)
    requires forall k :: k in h.processes ==> !h.processes[k].actual
    requires Shown(Run(h, steps, false), key)
    ensures Latest(steps) == Some(key)
    decreases |steps|
  {
    if |steps| > 0 {
      var prefix := steps[..|steps| - 1];
      var before := Run(h, prefix, false);
      match steps[|steps| - 1]
      case Refresh(k) =>
      case Unmount =>
      case Resolve(k, result) =>
        assert Shown(before, key);
        OnlyLatestIsActual(h, prefix, key);
    }
  }

  /**
   * Last query wins (corrected): starting from no actual key, an answer that
   * arrives is shown only if its key is the query most recently asked for.
   */
  lemma OnlyLatestAnswerShown(h: Hook, steps: seq<Step>, key: QueryKey, result: Body)
    requires forall k :: k in h.processes ==> !h.processes[k].actual
    requires key in Run(h, steps, false).processes
    ensures Run(h, steps + [Resolve(key, result)], false).loaded != Run(h, steps, false).loaded
            ==> Latest(steps) == Some(key) && Run(h, steps + [Resolve(key, result)], false).loaded == result
  {
    assert (steps + [Resolve(key, result)])[..|steps|] == steps;
    if Shown(Run(h, steps, false), key) {
      OnlyLatestIsActual(h, steps, key);
    }
  }

  /** Whether every step is an arriving answer. */
  predicate AllResolve(rs: seq<Step>)
  {
    forall i :: 0 <= i < |rs| ==> rs[i].Resolve?
  }

  /**
   * After unmount no answer is shown, whichever keys they are for and however
   * many arrive: no key is actual any more, and an answer leaves it so.
   */
  lemma {:induction false} NothingShownAfterUnmount(h: Hook, steps: seq<Step>, rs: seq<Step>, asWritten: bool)
    requires AllResolve(rs)
    ensures var after := Run(h, steps + [Unmount], asWritten);
            Run(h, steps + [Unmount] + rs, asWritten).loaded == after.loaded
    ensures forall k :: k in Run(h, steps + [Unmount] + rs, asWritten).processes ==>
              !Run(h, steps + [Unmount] + rs, asWritten).processes[k].actual
    decreases |rs|
  {
    var s1 := steps + [Unmount];
    var s := s1 + rs;
    if |rs| == 0 {
      assert s == s1;
      assert s1[..|s1| - 1] == steps;
    } else {
      var init := rs[..|rs| - 1];
      assert AllResolve(init);
      NothingShownAfterUnmount(h, steps, init, asWritten);
      assert s[..|s| - 1] == s1 + init;
      assert rs[|rs| - 1].Resolve?;
    }
  }

  /** A refresh for a key that is already loading makes no second list call (as written and corrected). */
  lemma RefreshDeduplicated(ps: Processes, key: QueryKey)
    requires key in ps && ps[key].active
    ensures !StartAsWritten(ps, key).1 && StartAsWritten(ps, key).0 == ps
    ensures !Start(ps, key).1
  {
  }

  /**
   * As written, the answer to a superseded query is shown: after refreshes for
   * `k1`, `k2`, `k1` in quick succession the third is dropped because `k1` is
   * still loading, `k2` stays actual, and its answer replaces the value
   * although `k1` is the query on screen. Corrected, it is not shown.
   */
  lemma StaleAnswerShownAsWritten(result: Body)
    requires result != Null
    ensures var k1 := ProcessKey(Some([]), Pagination(0, 10), None);
            var k2 := ProcessKey(Some([]), Pagination(1, 10), None);
            var steps := [Refresh(k1), Refresh(k2), Refresh(k1)];
            var h := Hook(map[], Null);
            Latest(steps) == Some(k1) &&
            Run(h, steps + [Resolve(k2, result)], true).loaded == result &&
            Run(h, steps + [Resolve(k2, result)], false).loaded == Null
  {
    var k1 := ProcessKey(Some([]), Pagination(0, 10), None);
    var k2 := ProcessKey(Some([]), Pagination(1, 10), None);
    var steps := [Refresh(k1), Refresh(k2), Refresh(k1)];
    var all := steps + [Resolve(k2, result)];
    var h := Hook(map[], Null);
    assert all[..3] == steps;
    assert steps[..2] == [Refresh(k1), Refresh(k2)];
    assert steps[..2][..1] == [Refresh(k1)];
    assert [Refresh(k1)][..0] == [];
    assert Run(h, [], true) == h && Run(h, [], false) == h;
    var w1 := Run(h, [Refresh(k1)], true);
    assert w1 == StepWith(h, Refresh(k1), true);
    assert ClearActual(map[]) == map[];
    assert w1.processes == map[k1 := Process(true, true)];
    var w2 := Run(h, steps[..2], true);
    assert w2.processes == map[k1 := Process(true, false), k2 := Process(true, true)];
    var w3 := Run(h, steps, true);
    assert w3.processes == w2.processes;
    var c1 := Run(h, [Refresh(k1)], false);
    assert c1 == StepWith(h, Refresh(k1), false);
    assert c1.processes == map[k1 := Process(true, true)];
    var c2 := Run(h, steps[..2], false);
    assert c2.processes == map[k1 := Process(true, false), k2 := Process(true, true)];
    var c3 := Run(h, steps, false);
    assert k2 in c3.processes && !c3.processes[k2].actual;
  }

  // ---------------------------------------------------------------------------
  // the hook as an object

  /** The events a view refreshes on. */
  const Watched: seq<Event> := [OnCreate, OnDelete, OnUpdate, OnChangeCustomQueryParams]

  /** Subscribing to `Watched` is the four `on` calls, in order. */
  lemma WatchedInOrder(h: Handlers, cb: Callback)
    ensures SubscribedAll(h, Watched, cb) ==
            Subscribed(Subscribed(Subscribed(Subscribed(h, OnCreate, cb), OnDelete, cb), OnUpdate, cb),
                       OnChangeCustomQueryParams, cb)
  {
    assert Watched[..3] == [OnCreate, OnDelete, OnUpdate];
    assert Watched[..3][..2] == [OnCreate, OnDelete];
    assert Watched[..3][..2][..1] == [OnCreate];
    assert [OnCreate][..0] == [];
    assert SubscribedAll(h, [], cb) == h;
    assert SubscribedAll(h, [OnCreate], cb) == Subscribed(h, OnCreate, cb);
    assert SubscribedAll(h, [OnCreate, OnDelete], cb)
        == Subscribed(Subscribed(h, OnCreate, cb), OnDelete, cb);
    assert SubscribedAll(h, [OnCreate, OnDelete, OnUpdate], cb)
        == Subscribed(Subscribed(Subscribed(h, OnCreate, cb), OnDelete, cb), OnUpdate, cb);
  }

  /** The capabilities of those four `on` calls, in order. */
  lemma WatchedSubscriptions(cb: Callback)
    ensures Subscriptions(Watched, cb) == [Subscription(OnCreate, cb), Subscription(OnDelete, cb),
                                           Subscription(OnUpdate, cb), Subscription(OnChangeCustomQueryParams, cb)]
  {
    var subs := Subscriptions(Watched, cb);
    assert subs[0] == Subscription(OnCreate, cb) && subs[1] == Subscription(OnDelete, cb);
    assert subs[2] == Subscription(OnUpdate, cb) && subs[3] == Subscription(OnChangeCustomQueryParams, cb);
  }

  class Coordinator {
    const emitter: EventEmitter
    var processes: Processes
    var loaded: Body
    var isFirstRender: bool
    var unsubscribes: seq<Subscription>

    /** The state the hook starts with: the cached answer, no process, first render pending. */
    constructor(emitter: EventEmitter, cache: Cache, filter: Option<seq<FilterNode>>, pagination: Pagination,
                sorting: Option<seq<SortEntry>>)
      ensures this.emitter == emitter
      ensures loaded == InitialLoaded(cache, filter, pagination, sorting)
      ensures processes == map[] && isFirstRender && unsubscribes == []
    {
      this.emitter := emitter;
      loaded := GetSerializationData(cache, filter.GetOr([]), pagination, sorting);
      processes := map[];
      isFirstRender := true;
      unsubscribes := [];
    }

    /** `Object.keys(dataLoadingProcess).forEach(key => ...actual = false)`. */
    method ClearActualFlags()
      modifies this
      ensures processes == ClearActual(old(processes))
      ensures loaded == old(loaded) && isFirstRender == old(isFirstRender) && unsubscribes == old(unsubscribes)
    {
      var keys := processes.Keys;
      var cleared: Processes := map[];
      while keys != {}
        invariant keys <= processes.Keys
        invariant cleared.Keys == processes.Keys - keys
        invariant forall k :: k in cleared ==> cleared[k] == Process(processes[k].active, false)
        decreases keys
      {
        var k :| k in keys;
        cleared := cleared[k := Process(processes[k].active, false)];
        keys := keys - {k};
      }
      processes := cleared;
    }

    /** `upList` up to its list call, which is made exactly when the result is true. */
    method Refresh(key: QueryKey) returns (listCall: bool)
      modifies this
      ensures (processes, listCall) == Start(old(processes), key)
      ensures loaded == old(loaded) && isFirstRender == old(isFirstRender) && unsubscribes == old(unsubscribes)
    {
      listCall := !(key in processes && processes[key].active);
      ClearActualFlags();
      processes := processes[key := Process(true, true)];
    }

    /**
     * `upList` as written, up to its list call: a key already loading is left
     * alone even when it is no longer actual (see `StaleAnswerShownAsWritten`).
     */
    method RefreshAsWritten(key: QueryKey) returns (listCall: bool)
      modifies this
      ensures (processes, listCall) == StartAsWritten(old(processes), key)
      ensures loaded == old(loaded) && isFirstRender == old(isFirstRender) && unsubscribes == old(unsubscribes)
    {
      if key in processes && processes[key].active {
        listCall := false;
        return;
      }
      listCall := true;
      ClearActualFlags();
      processes := processes[key := Process(true, true)];
    }

    /** The list call of a refresh for `key` has answered `result`. */
    method Resolve(key: QueryKey, result: Body)
      requires key in processes
      modifies this
      ensures (processes, loaded) == Complete(old(processes), key, result, old(loaded))
      ensures isFirstRender == old(isFirstRender) && unsubscribes == old(unsubscribes)
    {
      var actual := processes[key].actual;
      processes := processes[key := Process(false, actual)];
      if actual {
        loaded := result;
      }
    }

    /**
     * The subscribing effect: `upList` (identified by `cb`) is subscribed to
     * the four watched events, and refreshes at once unless this is the first
     * render. `asWritten` selects the refresh as written or corrected.
     */
    method Subscribe(cb: Callback, key: QueryKey, asWritten: bool) returns (listCall: bool)
      modifies this, emitter
      ensures emitter.handlers == SubscribedAll(old(emitter.handlers), Watched, cb)
      ensures unsubscribes == Subscriptions(Watched, cb)
      ensures old(isFirstRender) ==> processes == old(processes) && !listCall
      ensures !old(isFirstRender) && asWritten ==> (processes, listCall) == StartAsWritten(old(processes), key)
      ensures !old(isFirstRender) && !asWritten ==> (processes, listCall) == Start(old(processes), key)
      ensures loaded == old(loaded) && isFirstRender == old(isFirstRender)
    {
      var h0 := emitter.handlers;
      var s0 := emitter.On(OnCreate, cb);
      var s1 := emitter.On(OnDelete, cb);
      var s2 := emitter.On(OnUpdate, cb);
      var s3 := emitter.On(OnChangeCustomQueryParams, cb);
      WatchedInOrder(h0, cb);
      WatchedSubscriptions(cb);
      unsubscribes := [s0, s1, s2, s3];
      listCall := false;
      if !isFirstRender {
        if asWritten {
          listCall := RefreshAsWritten(key);
        } else {
          listCall := Refresh(key);
        }
      }
    }

    /** The subscribing effect's cleanup: every capability it obtained is run, in order. */
    method Unsubscribe()
      modifies emitter
      ensures emitter.handlers == UnsubscribedAll(old(emitter.handlers), unsubscribes)
    {
      var i := 0;
      while i < |unsubscribes|
        invariant 0 <= i <= |unsubscribes|
        invariant emitter.handlers == UnsubscribedAll(old(emitter.handlers), unsubscribes[..i])
      {
        assert unsubscribes[..i + 1][..i] == unsubscribes[..i];
        emitter.Unsubscribe(unsubscribes[i]);
        i := i + 1;
      }
      assert unsubscribes[..i] == unsubscribes;
    }

    /** The first-render effect: refreshes when neither data nor an error is loaded, once. */
    method FirstRender(key: QueryKey) returns (listCall: bool)
      modifies this
      ensures !isFirstRender
      ensures old(isFirstRender) && NeedsInitialRefresh(old(loaded)) ==> (processes, listCall) == Start(old(processes), key)
      ensures !(old(isFirstRender) && NeedsInitialRefresh(old(loaded))) ==> processes == old(processes) && !listCall
      ensures loaded == old(loaded) && unsubscribes == old(unsubscribes)
    {
      listCall := false;
      if isFirstRender {
        if NeedsInitialRefresh(loaded) {
          listCall := Refresh(key);
        }
        isFirstRender := false;
      }
    }

    /** Unmount: no pending answer may be shown any more. */
    method Teardown()
      modifies this
      ensures processes == ClearActual(old(processes))
      ensures loaded == old(loaded) && isFirstRender == old(isFirstRender) && unsubscribes == old(unsubscribes)
    {
      ClearActualFlags();
    }
  }

  /** The cleanup of the subscribing effect undoes its subscriptions, for a refresh callback not yet subscribed. */
  lemma SubscriptionsUndone(h: Handlers, cb: Callback)
    requires forall e :: e in Watched ==> cb !in HandlersOf(h, e)
    ensures forall e :: HandlersOf(UnsubscribedAll(SubscribedAll(h, Watched, cb), Subscriptions(Watched, cb)), e)
                        == HandlersOf(h, e)
  {
    SubscribeThenUnsubscribeAll(h, Watched, cb);
  }
}
