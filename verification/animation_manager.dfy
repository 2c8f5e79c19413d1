/**
 * The manager that keeps one running canvas engine per active canvas
 * animation. Each update asks the catalogue for the animations active at
 * the current instant, stops the engines whose id is no longer active,
 * starts an engine for each active canvas animation that has none, and
 * tells every registered callback the states of the engines.
 *
 * The engines and their canvases are opaque: an engine is its id and its
 * entry, a canvas is the flag saying whether it is still attached to the
 * page, and an engine's state is reported by its id. The engines are kept
 * as a list in insertion order, which is the iteration order of the
 * program's map.
 */
module AnimationManager {
  import opened Wrappers
  import opened Seqs
  import opened AnimationsConfig

  datatype Engine = Engine(id: string, config: AnimationConfig)

  /** One call of a registered callback with the states it received. */
  datatype Notification = Notification(callback: int, states: seq<string>)

  function EngineIds(es: seq<Engine>): (r: seq<string>)
    ensures |r| == |es|
    ensures forall i :: 0 <= i < |es| ==> r[i] == es[i].id
  {
    if es == [] then [] else [es[0].id] + EngineIds(es[1..])
  }

  lemma {:induction false} EngineIdsCons(es: seq<Engine>)
    requires es != []
    ensures EngineIds(es) == [es[0].id] + EngineIds(es[1..])
    ensures EngineIds(es[1..]) == EngineIds(es)[1..]
  {
  }

  lemma {:induction false} EngineIdsConcat(a: seq<Engine>, b: seq<Engine>)
    ensures EngineIds(a + b) == EngineIds(a) + EngineIds(b)
  {
  }

  predicate Distinct(s: seq<string>) {
    forall i, j :: 0 <= i < j < |s| ==> s[i] != s[j]
  }

  /** No two engines share an id: the keys of the program's map. */
  predicate DistinctIds(es: seq<Engine>) {
    Distinct(EngineIds(es))
  }

  /** `activeAnimations.find(a => a.id === id)` finds something. */
  predicate ActiveHas(active: seq<ActiveAnimation>, id: string) {
    exists k :: 0 <= k < |active| && active[k].config.id == id
  }

  /** The engines whose id is still active, in order: what the stopping pass leaves. */
  function KeepActive(es: seq<Engine>, active: seq<ActiveAnimation>): (r: seq<Engine>)
    ensures |r| <= |es|
    ensures forall k :: 0 <= k < |r| ==> ActiveHas(active, r[k].id)
  {
    if es == [] then []
    else
      var e := es[|es| - 1];
      KeepActive(es[..|es| - 1], active) + (if ActiveHas(active, e.id) then [e] else [])
  }

  /** An id no engine has is still absent after the stopping pass. */
  lemma {:induction false} KeepActiveAbsent(es: seq<Engine>, active: seq<ActiveAnimation>, id: string)
    requires id !in EngineIds(es)
    ensures id !in EngineIds(KeepActive(es, active))
    decreases |es|
  {
    if es != [] {
      var n := |es| - 1;
      var e := es[n];
      var added := if ActiveHas(active, e.id) then [e] else [];
      assert id !in EngineIds(es[..n]) && e.id != id by {
        EngineIdsInit(es);
      }
      KeepActiveAbsent(es[..n], active, id);
      KeepActiveSnoc(es, active);
      EngineIdsConcat(KeepActive(es[..n], active), added);
    }
  }

  /** The ids of all engines but the last are all ids but the last. */
  lemma {:induction false} EngineIdsInit(es: seq<Engine>)
    requires es != []
    ensures EngineIds(es[..|es| - 1]) == EngineIds(es)[..|es| - 1]
    ensures EngineIds(es)[|es| - 1] == es[|es| - 1].id
    ensures forall x :: x !in EngineIds(es) ==> x !in EngineIds(es[..|es| - 1])
  {
    var ids := EngineIds(es);
    assert EngineIds(es[..|es| - 1]) == ids[..|es| - 1];
    forall x | x in ids[..|es| - 1]
      ensures x in ids
    {
      var j :| 0 <= j < |es| - 1 && ids[..|es| - 1][j] == x;
      assert ids[j] == x;
    }
  }

  /** KeepActive on a non-empty list, one step unfolded. */
  lemma {:induction false} KeepActiveSnoc(es: seq<Engine>, active: seq<ActiveAnimation>)
    requires es != []
    ensures KeepActive(es, active)
         == KeepActive(es[..|es| - 1], active) + (if ActiveHas(active, es[|es| - 1].id) then [es[|es| - 1]] else [])
  {
  }

  /** The stopping pass is the filter on being active, so it keeps the engines' order. */
  lemma {:induction false} KeepActiveOrdered(es: seq<Engine>, active: seq<ActiveAnimation>)
    ensures KeepActive(es, active) == Filter(es, (e: Engine) => ActiveHas(active, e.id))
    ensures IsSubsequence(KeepActive(es, active), es)
    decreases |es|
  {
    if es != [] {
      var n := |es| - 1;
      var p := (e: Engine) => ActiveHas(active, e.id);
      KeepActiveOrdered(es[..n], active);
      assert es == es[..n] + [es[n]];
      FilterConcat(es[..n], [es[n]], p);
      assert Filter([es[n]], p) == if p(es[n]) then [es[n]] else [];
    }
  }

  /** An engine whose id is active survives the stopping pass. */
  lemma {:induction false} KeepActiveKeeps(es: seq<Engine>, active: seq<ActiveAnimation>, k: int)
    requires 0 <= k < |es| && ActiveHas(active, es[k].id)
    ensures es[k] in KeepActive(es, active)
    decreases |es|
  {
    var n := |es| - 1;
    if k < n {
      KeepActiveKeeps(es[..n], active, k);
    }
  }

  /** `engines.delete(id)`. */
  function RemoveId(es: seq<Engine>, id: string): (r: seq<Engine>)
    ensures |r| <= |es|
    ensures forall k :: 0 <= k < |r| ==> r[k].id != id
  {
    if es == [] then []
    else (if es[0].id == id then [] else [es[0]]) + RemoveId(es[1..], id)
  }

  lemma {:induction false} RemoveIdConcat(a: seq<Engine>, b: seq<Engine>, id: string)
    ensures RemoveId(a + b, id) == RemoveId(a, id) + RemoveId(b, id)
    decreases |a|
  {
    if a == [] {
      assert a + b == b;
    } else {
      var c := a + b;
      var t := a[1..];
      assert c[0] == a[0];
      assert c[1..] == t + b;
      RemoveIdConcat(t, b, id);
      var head := if a[0].id == id then [] else [a[0]];
      calc {
        RemoveId(c, id);
        head + RemoveId(t + b, id);
        head + (RemoveId(t, id) + RemoveId(b, id));
        (head + RemoveId(t, id)) + RemoveId(b, id);
        RemoveId(a, id) + RemoveId(b, id);
      }
    }
  }

  lemma {:induction false} RemoveIdAbsent(es: seq<Engine>, id: string)
    requires id !in EngineIds(es)
    ensures RemoveId(es, id) == es
    decreases |es|
  {
    if es != [] {
      assert EngineIds(es[1..]) == EngineIds(es)[1..];
      RemoveIdAbsent(es[1..], id);
    }
  }

  /** Deleting keeps the ids distinct, adds no id, and keeps every engine's other facts. */
  lemma {:induction false} RemoveIdKeeps(es: seq<Engine>, id: string, canvases: map<string, bool>)
    requires DistinctIds(es)
    ensures DistinctIds(RemoveId(es, id))
    ensures forall x :: x !in EngineIds(es) ==> x !in EngineIds(RemoveId(es, id))
    ensures AllOk(es, canvases) ==> AllOk(RemoveId(es, id), canvases - {id})
    decreases |es|
  {
    RemoveIdOk(es, id, canvases);
    if es != [] {
      var t := es[1..];
      var rest := RemoveId(t, id);
      var head := if es[0].id == id then [] else [es[0]];
      EngineIdsCons(es);
      HeadIdFresh(es);
      DistinctTail(EngineIds(es));
      RemoveIdKeeps(t, id, canvases);
      RemoveIdCons(es, id);
      EngineIdsConcat(head, rest);
      if head != [] {
        assert EngineIds(head) == [es[0].id];
        DistinctCons(es[0].id, EngineIds(rest));
      } else {
        assert head + rest == rest;
      }
    }
  }

  /** Deleting keeps every remaining engine's facts, with that id's canvas gone. */
  lemma {:induction false} RemoveIdOk(es: seq<Engine>, id: string, canvases: map<string, bool>)
    ensures AllOk(es, canvases) ==> AllOk(RemoveId(es, id), canvases - {id})
    decreases |es|
  {
    if es != [] && AllOk(es, canvases) {
      var t := es[1..];
      assert AllOk(t, canvases) by {
        forall k | 0 <= k < |t|
          ensures EngineOk(t[k], canvases)
        {
          assert t[k] == es[k + 1];
        }
      }
      RemoveIdOk(t, id, canvases);
      RemoveIdCons(es, id);
      var rest := RemoveId(t, id);
      var head := if es[0].id == id then [] else [es[0]];
      forall k | 0 <= k < |head + rest|
        ensures EngineOk((head + rest)[k], canvases - {id})
      {
        if k < |head| {
          assert (head + rest)[k] == es[0];
          assert EngineOk(es[0], canvases);
        } else {
          assert (head + rest)[k] == rest[k - |head|];
        }
      }
    }
  }

  /** RemoveId on a non-empty list, one step unfolded. */
  lemma {:induction false} RemoveIdCons(es: seq<Engine>, id: string)
    requires es != []
    ensures RemoveId(es, id) == (if es[0].id == id then [] else [es[0]]) + RemoveId(es[1..], id)
  {
  }

  lemma {:induction false} DistinctTail(s: seq<string>)
    requires s != [] && Distinct(s)
    ensures Distinct(s[1..])
  {
    forall i, j | 0 <= i < j < |s[1..]|
      ensures s[1..][i] != s[1..][j]
    {
      assert s[1..][i] == s[i + 1] && s[1..][j] == s[j + 1];
    }
  }

  lemma {:induction false} DistinctCons(x: string, s: seq<string>)
    requires x !in s && Distinct(s)
    ensures Distinct([x] + s)
  {
    var r := [x] + s;
    forall i, j | 0 <= i < j < |r|
      ensures r[i] != r[j]
    {
      assert r[j] == s[j - 1];
      if i > 0 {
        assert r[i] == s[i - 1];
      }
    }
  }

  /** With distinct ids, the first engine's id is not among the others. */
  lemma {:induction false} HeadIdFresh(es: seq<Engine>)
    requires es != [] && DistinctIds(es)
    ensures es[0].id !in EngineIds(es[1..])
  {
    forall k | 0 <= k < |es[1..]|
      ensures EngineIds(es[1..])[k] != es[0].id
    {
      assert EngineIds(es)[k + 1] == EngineIds(es[1..])[k];
    }
  }

  /** An engine as the manager keeps it: a canvas engine, under its entry's id, with a canvas. */
  predicate EngineOk(e: Engine, canvases: map<string, bool>) {
    e.config.kind.Canvas? && e.id == e.config.id && e.id in canvases
  }

  predicate AllOk(es: seq<Engine>, canvases: map<string, bool>) {
    forall k :: 0 <= k < |es| ==> EngineOk(es[k], canvases)
  }

  /** With distinct ids, `original[i]`'s id is not among the others. */
  lemma {:induction false} DistinctSplit(original: seq<Engine>, i: int)
    requires DistinctIds(original) && 0 <= i < |original|
    ensures original[i].id !in EngineIds(original[..i])
    ensures original[i].id !in EngineIds(original[i + 1..])
  {
    var ids := EngineIds(original);
    assert EngineIds(original[..i]) == ids[..i];
    assert EngineIds(original[i + 1..]) == ids[i + 1..];
  }

  /**
   * The engines the starting pass adds, in order of the active list: one
   * for each canvas entry whose id has no engine yet, unless building the
   * engine fails. `base` is what the stopping pass left.
   */
  function StartedFrom(base: seq<Engine>, active: seq<ActiveAnimation>, fails: AnimationConfig -> bool): (r: seq<Engine>)
    ensures forall k :: 0 <= k < |r| ==>
      ActiveHas(active, r[k].id) && r[k].config.kind.Canvas? && r[k].id == r[k].config.id
  {
    if active == [] then []
    else
      var prev := StartedFrom(base, active[..|active| - 1], fails);
      var a := active[|active| - 1];
      assert forall k :: 0 <= k < |prev| ==> ActiveHas(active, prev[k].id) by {
        forall k | 0 <= k < |prev|
          ensures ActiveHas(active, prev[k].id)
        {
          var w :| 0 <= w < |active| - 1 && active[..|active| - 1][w].config.id == prev[k].id;
          assert active[w].config.id == prev[k].id;
        }
      }
      prev + (if a.config.kind.Canvas? && a.config.id !in EngineIds(base + prev) && !fails(a.config)
              then [Engine(a.config.id, a.config)] else [])
  }

  /**
   * After the starting pass every active canvas entry whose engine builds
   * has an engine.
   */
  lemma {:induction false} StartedCovers(base: seq<Engine>, active: seq<ActiveAnimation>, fails: AnimationConfig -> bool, k: int)
    requires 0 <= k < |active| && active[k].config.kind.Canvas? && !fails(active[k].config)
    ensures active[k].config.id in EngineIds(base + StartedFrom(base, active, fails))
    decreases |active|
  {
    var n := |active| - 1;
    var prev := StartedFrom(base, active[..n], fails);
    var a := active[n];
    var added := if a.config.kind.Canvas? && a.config.id !in EngineIds(base + prev) && !fails(a.config)
                 then [Engine(a.config.id, a.config)] else [];
    assert base + StartedFrom(base, active, fails) == (base + prev) + added;
    EngineIdsConcat(base + prev, added);
    if k < n {
      assert active[..n][k] == active[k];
      StartedCovers(base, active[..n], fails, k);
    }
  }

  /**
   * After an update, every engine belongs to an active animation, every
   * still-active engine was kept, and every active canvas animation whose
   * engine builds has one.
   */
  lemma {:induction false} UpdateReconciles(before: seq<Engine>, active: seq<ActiveAnimation>, fails: AnimationConfig -> bool)
    ensures var kept := KeepActive(before, active);
      var es := kept + StartedFrom(kept, active, fails);
      && (forall k :: 0 <= k < |es| ==> ActiveHas(active, es[k].id))
      && (forall k :: 0 <= k < |before| && ActiveHas(active, before[k].id) ==> before[k] in es)
      && (forall k :: 0 <= k < |active| && active[k].config.kind.Canvas? && !fails(active[k].config) ==>
            active[k].config.id in EngineIds(es))
  {
    var kept := KeepActive(before, active);
    forall k | 0 <= k < |before| && ActiveHas(active, before[k].id)
      ensures before[k] in kept + StartedFrom(kept, active, fails)
    {
      KeepActiveKeeps(before, active, k);
    }
    forall k | 0 <= k < |active| && active[k].config.kind.Canvas? && !fails(active[k].config)
      ensures active[k].config.id in EngineIds(kept + StartedFrom(kept, active, fails))
    {
      StartedCovers(kept, active, fails, k);
    }
  }

  /** Each registered callback, in registration order, with the same states. */
  function Notify(callbacks: seq<int>, states: seq<string>): (r: seq<Notification>)
    ensures |r| == |callbacks|
    ensures forall i :: 0 <= i < |r| ==> r[i] == Notification(callbacks[i], states)
  {
    if callbacks == [] then [] else [Notification(callbacks[0], states)] + Notify(callbacks[1..], states)
  }

  /** Every field the manager updates, as one value. */
  datatype ManagerState = ManagerState(
    engines: seq<Engine>, canvases: map<string, bool>, container: Option<int>,
    updateInterval: Option<int>, liveIntervals: set<int>, nextTimer: int,
    currentDate: int, callbacks: seq<int>, notifications: seq<Notification>)

  /**
   * The canvases left once the engines with these ids are stopped: an
   * attached canvas among them is removed from the page and forgotten, a
   * detached one stays.
   */
  function Detach(c: map<string, bool>, ids: set<string>): map<string, bool>
  {
    map k | k in c && !(k in ids && c[k]) :: c[k]
  }

  /** The canvases once each of these ids has been given one if it had none; a new canvas is attached. */
  function Attach(c: map<string, bool>, ids: set<string>): map<string, bool>
  {
    map k | k in c.Keys + ids :: if k in c then c[k] else true
  }

  /** Stopping nothing detaches nothing. */
  lemma {:induction false} DetachNone(c: map<string, bool>)
    ensures Detach(c, {}) == c
  {
  }

  /** Trying nothing creates nothing. */
  lemma {:induction false} AttachNone(c: map<string, bool>)
    ensures Attach(c, {}) == c
  {
  }

  /** Stopping one more id detaches its canvas when it is attached. */
  lemma {:induction false} DetachStep(c: map<string, bool>, ids: set<string>, id: string)
    ensures (var d := Detach(c, ids); if id in d && d[id] then d - {id} else d) == Detach(c, ids + {id})
  {
  }

  /** Trying one more id creates its canvas when it has none. */
  lemma {:induction false} AttachStep(c: map<string, bool>, ids: set<string>, id: string)
    ensures (var d := Attach(c, ids); if id in d then d else d[id := true]) == Attach(c, ids + {id})
  {
  }

  /** The ids of all engines of `es`: those stopAll stops. */
  function IdsOf(es: seq<Engine>): set<string>
  {
    if es == [] then {} else IdsOf(es[..|es| - 1]) + {es[|es| - 1].id}
  }

  /** The ids of the engines of `es` that are not active: those the stopping pass stops. */
  function InactiveIds(es: seq<Engine>, active: seq<ActiveAnimation>): set<string>
  {
    if es == [] then {}
    else
      var n := |es| - 1;
      InactiveIds(es[..n], active) + (if ActiveHas(active, es[n].id) then {} else {es[n].id})
  }

  /** The stopping pass over one more engine stops at most that engine. */
  lemma {:induction false} InactiveIdsStep(es: seq<Engine>, active: seq<ActiveAnimation>, i: int)
    requires 0 <= i < |es|
    ensures InactiveIds(es[..i + 1], active)
      == InactiveIds(es[..i], active) + (if ActiveHas(active, es[i].id) then {} else {es[i].id})
    ensures IdsOf(es[..i + 1]) == IdsOf(es[..i]) + {es[i].id}
  {
    assert es[..i + 1][..i] == es[..i];
  }

  /**
   * The ids the starting pass gives a canvas: each active canvas entry
   * whose id has no engine when its turn comes, whether or not its engine
   * then builds.
   */
  function TriedIds(base: seq<Engine>, active: seq<ActiveAnimation>, fails: AnimationConfig -> bool): set<string>
  {
    if active == [] then {}
    else
      var n := |active| - 1;
      var a := active[n];
      var prev := StartedFrom(base, active[..n], fails);
      TriedIds(base, active[..n], fails) + (if a.config.kind.Canvas? && a.config.id !in EngineIds(base + prev) then {a.config.id} else {})
  }

  class AnimationManager {
    /** The catalogue that `getActiveAnimations` reads. */
    const registry: AnimationRegistry
    /** Whether building an engine for an entry throws. */
    const constructionFails: AnimationConfig -> bool
    var engines: seq<Engine>
    /** Canvases by id, with whether each is still attached to the page. */
    var canvases: map<string, bool>
    var container: Option<int>
    var updateInterval: Option<int>
    /** Intervals set and not cleared. */
    var liveIntervals: set<int>
    var nextTimer: int
    var currentDate: int
    var callbacks: seq<int>
    var notifications: seq<Notification>

    ghost predicate Valid()
      reads this
    {
      && DistinctIds(engines)
      && AllOk(engines, canvases)
      && liveIntervals == (if updateInterval.Some? then {updateInterval.value} else {})
    }

    function State(): ManagerState
      reads this
    {
      ManagerState(engines, canvases, container, updateInterval, liveIntervals, nextTimer,
                   currentDate, callbacks, notifications)
    }

    /**
     * The state an update leaves from `s`. Without a container it is `s`.
     * Otherwise the engines become those of `s` still active at its
     * instant followed by the newly started ones; the stopped engines'
     * attached canvases go and every entry the starting pass tried gets a
     * canvas; and each callback gets one more notification with the
     * resulting states. Nothing else changes.
     */
    function Updated(s: ManagerState): ManagerState
      reads registry
    {
      if s.container.None? then s
      else
        var active := ActiveAnimations(registry.config, s.currentDate);
        var kept := KeepActive(s.engines, active);
        var es := kept + StartedFrom(kept, active, constructionFails);
        s.(engines := es,
           canvases := Attach(Detach(s.canvases, InactiveIds(s.engines, active)), TriedIds(kept, active, constructionFails)),
           notifications := s.notifications + Notify(s.callbacks, EngineIds(es)))
    }

    constructor(r: AnimationRegistry, fails: AnimationConfig -> bool, now: int)
      ensures registry == r && constructionFails == fails
      ensures State() == ManagerState([], map[], None, None, {}, 0, now, [], [])
      ensures Valid()
    {
      registry := r;
      constructionFails := fails;
      engines := [];
      canvases := map[];
      container := None;
      updateInterval := None;
      liveIntervals := {};
      nextTimer := 0;
      currentDate := now;
      callbacks := [];
      notifications := [];
    }

    method Initialize(c: int)
      modifies this
      ensures State() == old(State()).(container := Some(c))
    {
      container := Some(c);
    }

    /** getActiveStates: one state per engine, in the engines' order. */
    function ActiveStates(): (r: seq<string>)
      reads this
      ensures |r| == |engines|
      ensures forall i :: 0 <= i < |r| ==> r[i] == engines[i].id
    {
      EngineIds(engines)
    }

    method OnStateChange(callback: int)
      modifies this
      ensures State() == old(State()).(callbacks := old(callbacks) + [callback])
    {
      callbacks := callbacks + [callback];
    }

    method NotifyCallbacks()
      modifies this
      ensures State() == old(State()).(notifications := old(notifications) + Notify(old(callbacks), EngineIds(old(engines))))
    {
      var states := EngineIds(engines);
      for i := 0 to |callbacks|
        invariant callbacks == old(callbacks)
        invariant State() == old(State()).(notifications := old(notifications) + Notify(callbacks[..i], states))
      {
        assert Notify(callbacks[..i + 1], states) == Notify(callbacks[..i], states) + [Notification(callbacks[i], states)];
        notifications := notifications + [Notification(callbacks[i], states)];
      }
      assert callbacks[..|callbacks|] == callbacks;
    }

    /**
     * stopAnimation: the engine with that id goes; its canvas goes only when
     * it is attached to the page.
     */
    method StopAnimation(id: string)
      requires Valid()
      modifies this
      ensures Valid()
      ensures State() == old(State()).(
        engines := RemoveId(old(engines), id),
        canvases := if id in old(canvases) && old(canvases[id]) then old(canvases) - {id} else old(canvases))
    {
      RemoveIdKeeps(engines, id, canvases);
      var remaining := RemoveId(engines, id);
      assert AllOk(remaining, canvases) by {
        forall k | 0 <= k < |remaining|
          ensures EngineOk(remaining[k], canvases)
        {
          assert EngineOk(remaining[k], canvases - {id});
        }
      }
      engines := remaining;
      canvases := if id in canvases && canvases[id] then canvases - {id} else canvases;
    }

    /**
     * startCanvasAnimation: without a container nothing happens. Otherwise
     * the entry gets a canvas if it had none, and an engine under its id
     * unless building it fails; an existing engine under that id is
     * replaced in place.
     */
    method StartCanvasAnimation(config: AnimationConfig)
      requires Valid() && config.kind.Canvas?
      modifies this
      ensures Valid()
      ensures old(container).None? ==> State() == old(State())
      ensures old(container).Some? ==> State() == old(State()).(
        canvases := if config.id in old(canvases) then old(canvases) else old(canvases)[config.id := true],
        engines := if constructionFails(config) then old(engines) else SetEngine(old(engines), Engine(config.id, config)))
    {
      if container.None? {
        return;
      }
      var newCanvases := if config.id in canvases then canvases else canvases[config.id := true];
      AllOkGrow(engines, canvases, newCanvases);
      canvases := newCanvases;
      SetEngineKeeps(engines, Engine(config.id, config), canvases);
      engines := if constructionFails(config) then engines else SetEngine(engines, Engine(config.id, config));
    }

    /**
     * The stopping pass: every engine whose id is not active is stopped, in
     * order, and so loses its canvas when that canvas is attached.
     */
    method StopInactive(active: seq<ActiveAnimation>)
      requires Valid()
      modifies this
      ensures Valid()
      ensures State() == old(State()).(
        engines := KeepActive(old(engines), active),
        canvases := Detach(old(canvases), InactiveIds(old(engines), active)))
    {
      var original := engines;
      DetachNone(canvases);
      assert original[..0] == [];
      for i := 0 to |original|
        invariant Valid()
        invariant State() == old(State()).(
          engines := KeepActive(original[..i], active) + original[i..],
          canvases := Detach(old(canvases), InactiveIds(original[..i], active)))
      {
        StopIfInactive(original, active, i, old(canvases));
      }
      assert original[..|original|] == original;
    }

    /** One step of the stopping pass: `original[i]` is stopped when its id is not active. */
    method StopIfInactive(original: seq<Engine>, active: seq<ActiveAnimation>, i: int, ghost c: map<string, bool>)
      requires Valid() && DistinctIds(original) && 0 <= i < |original|
      requires engines == KeepActive(original[..i], active) + original[i..]
      requires canvases == Detach(c, InactiveIds(original[..i], active))
      modifies this
      ensures Valid()
      ensures State() == old(State()).(
        engines := KeepActive(original[..i + 1], active) + original[i + 1..],
        canvases := Detach(c, InactiveIds(original[..i + 1], active)))
    {
      ghost var stopped := InactiveIds(original[..i], active);
      var id := original[i].id;
      StopStep(original, active, i);
      InactiveIdsStep(original, active, i);
      if !ActiveHas(active, id) {
        DetachStep(c, stopped, id);
        StopAnimation(id);
      } else {
        assert stopped + {} == stopped;
      }
    }

    /**
     * The starting pass: each active canvas entry without an engine is
     * started, in order, and gets a canvas if it had none.
     */
    method StartMissing(active: seq<ActiveAnimation>)
      requires Valid() && container.Some?
      modifies this
      ensures Valid()
      ensures State() == old(State()).(
        engines := old(engines) + StartedFrom(old(engines), active, constructionFails),
        canvases := Attach(old(canvases), TriedIds(old(engines), active, constructionFails)))
    {
      var base := engines;
      AttachNone(canvases);
      assert active[..0] == [];
      for j := 0 to |active|
        invariant Valid() && container.Some?
        invariant State() == old(State()).(
          engines := base + StartedFrom(base, active[..j], constructionFails),
          canvases := Attach(old(canvases), TriedIds(base, active[..j], constructionFails)))
      {
        StartIfMissing(base, active, j, old(canvases));
      }
      assert active[..|active|] == active;
    }

    /** One step of the starting pass: `active[j]` is started when it is a canvas entry without an engine. */
    method StartIfMissing(base: seq<Engine>, active: seq<ActiveAnimation>, j: int, ghost c: map<string, bool>)
      requires Valid() && container.Some? && 0 <= j < |active|
      requires engines == base + StartedFrom(base, active[..j], constructionFails)
      requires canvases == Attach(c, TriedIds(base, active[..j], constructionFails))
      modifies this
      ensures Valid()
      ensures State() == old(State()).(
        engines := base + StartedFrom(base, active[..j + 1], constructionFails),
        canvases := Attach(c, TriedIds(base, active[..j + 1], constructionFails)))
    {
      var a := active[j];
      ghost var prev := StartedFrom(base, active[..j], constructionFails);
      ghost var tried := TriedIds(base, active[..j], constructionFails);
      ghost var added := if a.config.kind.Canvas? && a.config.id !in EngineIds(base + prev) && !constructionFails(a.config)
                         then [Engine(a.config.id, a.config)] else [];
      StartedStep(base, active, j, constructionFails);
      AppendAssoc(base, prev, added);
      if a.config.kind.Canvas? && a.config.id !in EngineIds(engines) {
        AttachStep(c, tried, a.config.id);
        SetEngineAbsent(engines, Engine(a.config.id, a.config));
        StartCanvasAnimation(a.config);
      } else {
        assert engines + added == engines;
        assert tried + {} == tried;
      }
    }

    /**
     * updateAnimations: without a container nothing happens; otherwise the
     * stopping pass, the starting pass and the notification run in turn.
     */
    method UpdateAnimations()
      requires Valid()
      modifies this
      ensures Valid()
      ensures State() == Updated(old(State()))
    {
      if container.None? {
        return;
      }
      var active := registry.GetActiveAnimations(currentDate);
      StopInactive(active);
      StartMissing(active);
      NotifyCallbacks();
    }

    /** The stopping pass at index i keeps or drops exactly `original[i]`. */
    static lemma StopStep(original: seq<Engine>, active: seq<ActiveAnimation>, i: int)
      requires 0 <= i < |original| && DistinctIds(original)
      ensures ActiveHas(active, original[i].id) ==>
        KeepActive(original[..i], active) + original[i..] == KeepActive(original[..i + 1], active) + original[i + 1..]
      ensures !ActiveHas(active, original[i].id) ==>
        RemoveId(KeepActive(original[..i], active) + original[i..], original[i].id)
          == KeepActive(original[..i + 1], active) + original[i + 1..]
    {
      var pre := original[..i];
      var kp := KeepActive(pre, active);
      var e := original[i];
      var rest := original[i + 1..];
      assert original[..i + 1][..i] == pre;
      assert KeepActive(original[..i + 1], active) == kp + (if ActiveHas(active, e.id) then [e] else []);
      assert original[i..] == [e] + rest;
      if ActiveHas(active, e.id) {
        assert kp + ([e] + rest) == (kp + [e]) + rest;
      } else {
        DistinctSplit(original, i);
        KeepActiveAbsent(pre, active, e.id);
        RemoveIdAbsent(kp, e.id);
        RemoveIdAbsent(rest, e.id);
        RemoveIdConcat(kp, [e] + rest, e.id);
        assert ([e] + rest)[0] == e && ([e] + rest)[1..] == rest;
        assert RemoveId([e] + rest, e.id) == rest;
        assert kp + [] == kp;
      }
    }

    /** stopAll: every engine is stopped, and the attached canvases of all of them go. */
    method StopAll()
      requires Valid()
      modifies this
      ensures Valid()
      ensures State() == old(State()).(engines := [], canvases := Detach(old(canvases), IdsOf(old(engines))))
    {
      var original := engines;
      for i := 0 to |original|
        invariant Valid()
        invariant State() == old(State()).(engines := original[i..], canvases := Detach(old(canvases), IdsOf(original[..i])))
      {
        assert original[i..] == [original[i]] + original[i + 1..];
        InactiveIdsStep(original, [], i);
        DistinctSplit(original, i);
        RemoveIdAbsent(original[i + 1..], original[i].id);
        RemoveIdConcat([original[i]], original[i + 1..], original[i].id);
        DetachStep(old(canvases), IdsOf(original[..i]), original[i].id);
        StopAnimation(original[i].id);
      }
      assert original[..|original|] == original;
    }

    /** stopAutoUpdate: the interval, if any, is cleared. */
    method StopAutoUpdate()
      requires Valid()
      modifies this
      ensures Valid()
      ensures State() == old(State()).(updateInterval := None, liveIntervals := {})
    {
      if updateInterval.Some? {
        liveIntervals := liveIntervals - {updateInterval.value};
        updateInterval := None;
      }
    }

    /**
     * startAutoUpdate: any previous interval is cleared and a fresh one is
     * set, so at most one is ever live; one update runs at once.
     */
    method StartAutoUpdate()
      requires Valid()
      modifies this
      ensures Valid()
      ensures State() == Updated(old(State()).(
        updateInterval := Some(old(nextTimer)), liveIntervals := {old(nextTimer)}, nextTimer := old(nextTimer) + 1))
    {
      StopAutoUpdate();
      updateInterval := Some(nextTimer);
      liveIntervals := {nextTimer};
      nextTimer := nextTimer + 1;
      UpdateAnimations();
    }

    /** The auto-update interval fires. */
    method AutoUpdateTick()
      requires Valid() && updateInterval.Some?
      modifies this
      ensures Valid()
      ensures State() == Updated(old(State()))
    {
      UpdateAnimations();
    }

    /** setCurrentTime: the instant changes and an update runs. */
    method SetCurrentTime(date: int)
      requires Valid()
      modifies this
      ensures Valid()
      ensures State() == Updated(old(State()).(currentDate := date))
    {
      currentDate := date;
      UpdateAnimations();
    }

    /** forceAnimation: a canvas entry is started whatever its schedule; other kinds are ignored. */
    method ForceAnimation(config: AnimationConfig)
      requires Valid()
      modifies this
      ensures Valid()
      ensures !config.kind.Canvas? || old(container).None? ==> State() == old(State())
      ensures config.kind.Canvas? && old(container).Some? ==> State() == old(State()).(
        canvases := if config.id in old(canvases) then old(canvases) else old(canvases)[config.id := true],
        engines := if constructionFails(config) then old(engines) else SetEngine(old(engines), Engine(config.id, config)))
    {
      if config.kind.Canvas? {
        StartCanvasAnimation(config);
      }
    }

    /** cleanup: no engine, no interval and no callback remain. */
    method Cleanup()
      requires Valid()
      modifies this
      ensures Valid()
      ensures State() == old(State()).(
        engines := [], canvases := Detach(old(canvases), IdsOf(old(engines))),
        updateInterval := None, liveIntervals := {}, callbacks := [])
    {
      StopAll();
      StopAutoUpdate();
      callbacks := [];
    }
  }

  /** The starting pass over one more active entry adds at most that entry's engine and tries at most its canvas. */
  lemma {:induction false} StartedStep(base: seq<Engine>, active: seq<ActiveAnimation>, j: int, fails: AnimationConfig -> bool)
    requires 0 <= j < |active|
    ensures var prev := StartedFrom(base, active[..j], fails);
      var a := active[j];
      StartedFrom(base, active[..j + 1], fails)
        == prev + (if a.config.kind.Canvas? && a.config.id !in EngineIds(base + prev) && !fails(a.config)
                   then [Engine(a.config.id, a.config)] else [])
    ensures var prev := StartedFrom(base, active[..j], fails);
      var a := active[j];
      TriedIds(base, active[..j + 1], fails)
        == TriedIds(base, active[..j], fails)
           + (if a.config.kind.Canvas? && a.config.id !in EngineIds(base + prev) then {a.config.id} else {})
  {
    assert active[..j + 1][..j] == active[..j];
  }

  /** More canvases keep every engine's facts. */
  lemma {:induction false} AllOkGrow(es: seq<Engine>, c: map<string, bool>, c': map<string, bool>)
    requires AllOk(es, c) && c.Keys <= c'.Keys
    ensures AllOk(es, c')
  {
    forall k | 0 <= k < |es|
      ensures EngineOk(es[k], c')
    {
      assert EngineOk(es[k], c);
    }
  }

  /** `engines.set(e.id, e)`: replaces the engine with that id in place, or appends. */
  function SetEngine(es: seq<Engine>, e: Engine): (r: seq<Engine>)
    ensures EngineIds(r) == if e.id in EngineIds(es) then EngineIds(es) else EngineIds(es) + [e.id]
  {
    if es == [] then [e]
    else if es[0].id == e.id then
      assert EngineIds(es) == [es[0].id] + EngineIds(es[1..]);
      [e] + es[1..]
    else
      var rest := SetEngine(es[1..], e);
      assert EngineIds(es) == [es[0].id] + EngineIds(es[1..]);
      assert EngineIds([es[0]] + rest) == [es[0].id] + EngineIds(rest);
      [es[0]] + rest
  }

  /** With no engine under that id, setting one appends it. */
  lemma {:induction false} SetEngineAbsent(es: seq<Engine>, e: Engine)
    ensures e.id !in EngineIds(es) ==> SetEngine(es, e) == es + [e]
    decreases |es|
  {
    if es != [] && e.id !in EngineIds(es) {
      var t := es[1..];
      EngineIdsCons(es);
      SetEngineAbsent(t, e);
      SetEngineBehind(es, e);
      AppendAssoc([es[0]], t, [e]);
      assert [es[0]] + t == es;
    }
  }

  /** An engine under another id stays in front. */
  lemma {:induction false} SetEngineBehind(es: seq<Engine>, e: Engine)
    requires es != [] && es[0].id != e.id
    ensures SetEngine(es, e) == [es[0]] + SetEngine(es[1..], e)
  {
  }

  /** Setting an engine keeps the ids distinct and keeps every engine's facts. */
  lemma {:induction false} SetEngineKeeps(es: seq<Engine>, e: Engine, canvases: map<string, bool>)
    requires DistinctIds(es)
    ensures DistinctIds(SetEngine(es, e))
    ensures AllOk(es, canvases) && EngineOk(e, canvases) ==> AllOk(SetEngine(es, e), canvases)
  {
    var ids := EngineIds(es);
    if e.id !in ids {
      assert EngineIds(SetEngine(es, e)) == ids + [e.id];
    }
    if AllOk(es, canvases) && EngineOk(e, canvases) {
      SetEngineOk(es, e, canvases);
    }
  }

  /** Every engine of the result is an engine of the input or the new one. */
  lemma {:induction false} SetEngineOk(es: seq<Engine>, e: Engine, canvases: map<string, bool>)
    requires AllOk(es, canvases) && EngineOk(e, canvases)
    ensures AllOk(SetEngine(es, e), canvases)
    decreases |es|
  {
    if es != [] && es[0].id != e.id {
      SetEngineOk(es[1..], e, canvases);
    }
  }
}
