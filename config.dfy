/** The configuration registry of cfig/config.py: raw-value lookup across
    ordered sources, lazily resolved items, registration of items under
    unique keys, and the batch passes that force every item. */
module Config {
  import opened Wrappers
  import opened Errors
  import opened Sources

  // ---------------------------------------------------------------------
  // Raw-value lookup
  // ---------------------------------------------------------------------

  /** Python truthiness of a source's answer: a value that is not None and
      not the empty string. */
  predicate Truthy(v: Option<string>)
  {
    v.Some? && v.value != ""
  }

  /** `_retrieve_value_optional`: the first truthy answer of the sources,
      probed in order, or None. */
  function RetrieveOptional(sources: seq<Source>, key: string, w: World): (r: Option<string>)
    ensures r.Some? ==> r.value != ""
    ensures r.None? <==> forall i :: 0 <= i < |sources| ==> !Truthy(Get(sources[i], key, w))
    ensures r.Some? ==> exists i :: 0 <= i < |sources| && Get(sources[i], key, w) == r
                          && forall j :: 0 <= j < i ==> !Truthy(Get(sources[j], key, w))
  {
    if sources == [] then None
    else
      var v := Get(sources[0], key, w);
      if Truthy(v) then v
      else
        var r := RetrieveOptional(sources[1..], key, w);
        assert forall i :: 1 <= i < |sources| ==> sources[i] == sources[1..][i - 1];
        r
  }

  /** Once a source has answered, the sources after it are never consulted:
      appending sources changes nothing; and sources that all fail to
      answer may be dropped from the front. */
  lemma {:induction false} RetrieveStopsAtFirstValue(sources: seq<Source>, tail: seq<Source>, key: string, w: World)
    ensures RetrieveOptional(sources, key, w).Some? ==>
              RetrieveOptional(sources + tail, key, w) == RetrieveOptional(sources, key, w)
    ensures RetrieveOptional(sources, key, w).None? ==>
              RetrieveOptional(sources + tail, key, w) == RetrieveOptional(tail, key, w)
  {
    if sources != [] {
      assert (sources + tail)[0] == sources[0];
      assert (sources + tail)[1..] == sources[1..] + tail;
      RetrieveStopsAtFirstValue(sources[1..], tail, key, w);
    } else {
      assert sources + tail == tail;
    }
  }

  /** `_retrieve_value_required`: the raw value, or `MissingValueError(key)`
      when no source gives a non-empty one. */
  function RetrieveRequired(sources: seq<Source>, key: string, w: World): (r: Result<string, Error>)
    ensures r.Failure? <==> forall i :: 0 <= i < |sources| ==> !Truthy(Get(sources[i], key, w))
    ensures r.Failure? ==> r.error == MissingValue(key)
    ensures r.Success? ==> r.value != "" && Some(r.value) == RetrieveOptional(sources, key, w)
  {
    var v := RetrieveOptional(sources, key, w);
    if Truthy(v) then Success(v.value) else Failure(MissingValue(key))
  }

  // ---------------------------------------------------------------------
  // Items: what one lazy cell computes
  // ---------------------------------------------------------------------

  /** Which decorator created an item: `required()` or `optional()`. */
  datatype Kind = Required | Optional

  /** The user's configurable function: raw value to typed value, or an
      error it raises (`InvalidValueError` or anything else). */
  type Resolver<T> = string -> Result<T, Error>

  /** The state of a lazy cell. `Resolved(None)` is an item whose value is
      Python's None. */
  datatype CellState<T> = Unresolved | Resolved(value: Option<T>)

  /** What a resolver call yields as an item value. */
  function Apply<T>(resolver: Resolver<T>, raw: string): (r: Result<Option<T>, Error>)
  {
    match resolver(raw)
    case Success(v) => Success(Some(v))
    case Failure(e) => Failure(e)
  }

  /** Whether evaluating an item calls its resolver: exactly when some
      source gives a non-empty value, for both kinds. */
  predicate ResolverInvoked(key: string, sources: seq<Source>, w: World)
  {
    RetrieveOptional(sources, key, w).Some?
  }

  /** The factory of an item (`_decorated` in `_create_item_required` and
      `_create_item_optional`): look the value up, then resolve it. With no
      value the resolver is not run, and the result does not depend on it:
      a required item fails with `MissingValueError(key)`, an optional one
      is None. Otherwise both kinds give the resolver applied to the first
      non-empty value, errors included. */
  function Evaluate<T>(kind: Kind, key: string, resolver: Resolver<T>, sources: seq<Source>, w: World)
    : (r: Result<Option<T>, Error>)
    ensures !ResolverInvoked(key, sources, w) ==>
              r == if kind == Required then Failure(MissingValue(key)) else Success(None)
    ensures ResolverInvoked(key, sources, w) ==>
              r == Apply(resolver, RetrieveOptional(sources, key, w).value)
  {
    match kind
    case Required =>
      (match RetrieveRequired(sources, key, w)
       case Failure(e) => Failure(e)
       case Success(raw) => Apply(resolver, raw))
    case Optional =>
      match RetrieveOptional(sources, key, w)
      case None => Success(None)
      case Some(raw) => Apply(resolver, raw)
  }

  /** A pure view of one item: what it looks up, how it resolves, and its
      cell state. */
  datatype Cell<T> = Cell(key: string, kind: Kind, resolver: Resolver<T>, state: CellState<T>)

  /** What forcing a cell returns: the cached value if it has one,
      otherwise a fresh evaluation against the current world. */
  function ForceResult<T>(c: Cell<T>, sources: seq<Source>, w: World): (r: Result<Option<T>, Error>)
  {
    match c.state
    case Resolved(v) => Success(v)
    case Unresolved => Evaluate(c.kind, c.key, c.resolver, sources, w)
  }

  /** The effect of forcing one cell: the same item, cached on success,
      left as it was on failure (a failed resolution is not cached). */
  ghost predicate Forced<T>(before: Cell<T>, after: Cell<T>, sources: seq<Source>, w: World)
  {
    && after.(state := before.state) == before
    && (ForceResult(before, sources, w).Success? ==> after.state == Resolved(ForceResult(before, sources, w).value))
    && (ForceResult(before, sources, w).Failure? ==> after.state == before.state)
  }

  /** A view of an item together with how many times its factory and its
      resolver have run. */
  datatype Tally<T> = Tally(cell: Cell<T>, evaluations: nat, resolverCalls: nat)

  /** The effect of forcing one item, counters included: `Forced` on the
      view; the factory runs once if the item was unresolved and never
      otherwise, and the resolver runs once more exactly when it also
      found a value. */
  ghost predicate Counted<T>(before: Tally<T>, after: Tally<T>, sources: seq<Source>, w: World)
  {
    && Forced(before.cell, after.cell, sources, w)
    && after.evaluations == before.evaluations + (if before.cell.state.Unresolved? then 1 else 0)
    && after.resolverCalls
       == before.resolverCalls + (if before.cell.state.Unresolved? && ResolverInvoked(before.cell.key, sources, w) then 1 else 0)
  }

  /** The views in a sequence of tallies. */
  ghost function CellsOf<T>(ts: seq<Tally<T>>): (cells: seq<Cell<T>>)
    ensures |cells| == |ts|
    ensures forall i :: 0 <= i < |ts| ==> cells[i] == ts[i].cell
  {
    seq(|ts|, i requires 0 <= i < |ts| => ts[i].cell)
  }

  // ---------------------------------------------------------------------
  // Batch resolution, specified on views
  // ---------------------------------------------------------------------

  predicate DistinctKeys<T>(cells: seq<Cell<T>>)
  {
    forall i, j :: 0 <= i < j < |cells| ==> cells[i].key != cells[j].key
  }

  /** Collect-all: force every cell in order; successes go to the value
      map, failures to the error list, and no failure stops the pass. */
  function CollectAll<T>(cells: seq<Cell<T>>, sources: seq<Source>, w: World): (r: (map<string, Option<T>>, Entries))
  {
    if cells == [] then (map[], [])
    else
      var (values, errors) := CollectAll(cells[..|cells| - 1], sources, w);
      var c := cells[|cells| - 1];
      match ForceResult(c, sources, w)
      case Success(v) => (values[c.key := v], errors)
      case Failure(e) => (values, errors + [(c.key, e)])
  }

  /** Fail-fast: force every cell in order and stop at the first failure. */
  function FailFast<T>(cells: seq<Cell<T>>, sources: seq<Source>, w: World): (r: Result<map<string, Option<T>>, Error>)
  {
    if cells == [] then Success(map[])
    else
      match FailFast(cells[..|cells| - 1], sources, w)
      case Failure(e) => Failure(e)
      case Success(values) =>
        var c := cells[|cells| - 1];
        match ForceResult(c, sources, w)
        case Success(v) => Success(values[c.key := v])
        case Failure(e) => Failure(e)
  }

  /** Every cell before index `n` succeeds. */
  ghost predicate SucceedsBefore<T>(cells: seq<Cell<T>>, n: int, sources: seq<Source>, w: World)
  {
    forall j :: 0 <= j < n && j < |cells| ==> ForceResult(cells[j], sources, w).Success?
  }

  /** The effect of a collect-all pass: every cell was forced. */
  ghost predicate CollectAllEffect<T>(before: seq<Cell<T>>, after: seq<Cell<T>>, sources: seq<Source>, w: World)
  {
    && |after| == |before|
    && forall i :: 0 <= i < |before| ==> Forced(before[i], after[i], sources, w)
  }

  /** The effect of a fail-fast pass: cells up to the first failure were
      forced, the cells after it are untouched. */
  ghost predicate FailFastEffect<T>(before: seq<Cell<T>>, after: seq<Cell<T>>, sources: seq<Source>, w: World)
  {
    && |after| == |before|
    && forall i :: 0 <= i < |before| ==>
         if SucceedsBefore(before, i, sources, w) then Forced(before[i], after[i], sources, w)
         else after[i] == before[i]
  }

  /** The value map of collect-all: with distinct keys, exactly the keys
      that succeeded, each with its value. */
  lemma {:induction false} CollectAllValues<T>(cells: seq<Cell<T>>, sources: seq<Source>, w: World)
    requires DistinctKeys(cells)
    ensures forall i :: 0 <= i < |cells| && ForceResult(cells[i], sources, w).Success? ==>
              cells[i].key in CollectAll(cells, sources, w).0
              && CollectAll(cells, sources, w).0[cells[i].key] == ForceResult(cells[i], sources, w).value
    ensures forall k :: k in CollectAll(cells, sources, w).0 ==>
              exists i :: 0 <= i < |cells| && cells[i].key == k && ForceResult(cells[i], sources, w).Success?
  {
    if cells != [] {
      var n := |cells| - 1;
      var init, c := cells[..n], cells[n];
      assert DistinctKeys(init);
      CollectAllValues(init, sources, w);
      var r := ForceResult(c, sources, w);
      var values, initValues := CollectAll(cells, sources, w).0, CollectAll(init, sources, w).0;
      assert values == if r.Success? then initValues[c.key := r.value] else initValues;
      forall i | 0 <= i < |cells| && ForceResult(cells[i], sources, w).Success?
        ensures cells[i].key in values && values[cells[i].key] == ForceResult(cells[i], sources, w).value
      {
        if i < n {
          assert init[i] == cells[i] && cells[i].key != c.key;
        }
      }
      forall k | k in values
        ensures exists i :: 0 <= i < |cells| && cells[i].key == k && ForceResult(cells[i], sources, w).Success?
      {
        if k in initValues {
          var i :| 0 <= i < |init| && init[i].key == k && ForceResult(init[i], sources, w).Success?;
          assert cells[i] == init[i];
        } else {
          assert cells[n].key == k && r.Success?;
        }
      }
    }
  }

  /** The indices of the cells that fail, in increasing order. */
  function FailingIndices<T>(cells: seq<Cell<T>>, sources: seq<Source>, w: World): (idx: seq<nat>)
    ensures forall k :: 0 <= k < |idx| ==> idx[k] < |cells| && ForceResult(cells[idx[k]], sources, w).Failure?
  {
    if cells == [] then []
    else
      var n := |cells| - 1;
      var prefix := cells[..n];
      var init := FailingIndices(prefix, sources, w);
      assert forall k :: 0 <= k < |init| ==> prefix[init[k]] == cells[init[k]];
      if ForceResult(cells[n], sources, w).Failure? then init + [n] else init
  }

  /** `FailingIndices` lists every failing cell exactly once: the indices
      strictly increase, and each failing index is among them. */
  lemma {:induction false} FailingIndicesExact<T>(cells: seq<Cell<T>>, sources: seq<Source>, w: World)
    ensures forall k, l :: 0 <= k < l < |FailingIndices(cells, sources, w)| ==>
              FailingIndices(cells, sources, w)[k] < FailingIndices(cells, sources, w)[l]
    ensures forall i :: 0 <= i < |cells| && ForceResult(cells[i], sources, w).Failure? ==>
              i in FailingIndices(cells, sources, w)
  {
    if cells != [] {
      var n := |cells| - 1;
      var prefix := cells[..n];
      FailingIndicesExact(prefix, sources, w);
      assert forall i :: 0 <= i < n ==> prefix[i] == cells[i];
    }
  }

  /** The error list of collect-all follows the order of the cells: its
      k-th entry is the key and the error of the k-th failing cell, so it
      holds one entry per failing cell and no other. */
  lemma {:induction false} CollectAllErrors<T>(cells: seq<Cell<T>>, sources: seq<Source>, w: World)
    ensures |CollectAll(cells, sources, w).1| == |FailingIndices(cells, sources, w)|
    ensures forall k :: 0 <= k < |CollectAll(cells, sources, w).1| ==>
              CollectAll(cells, sources, w).1[k]
              == (cells[FailingIndices(cells, sources, w)[k]].key,
                  ForceResult(cells[FailingIndices(cells, sources, w)[k]], sources, w).error)
  {
    if cells != [] {
      var n := |cells| - 1;
      var init := cells[..n];
      CollectAllErrors(init, sources, w);
      var errors, initErrors := CollectAll(cells, sources, w).1, CollectAll(init, sources, w).1;
      var idx, initIdx := FailingIndices(cells, sources, w), FailingIndices(init, sources, w);
      forall k | 0 <= k < |initErrors|
        ensures errors[k] == (cells[idx[k]].key, ForceResult(cells[idx[k]], sources, w).error)
      {
        assert idx[k] == initIdx[k] && init[initIdx[k]] == cells[idx[k]];
      }
    }
  }

  /** With distinct item keys, the error list names each failing key once,
      as the dictionary it stands for. */
  lemma CollectAllErrorKeysDistinct<T>(cells: seq<Cell<T>>, sources: seq<Source>, w: World)
    requires DistinctKeys(cells)
    ensures DistinctEntryKeys(CollectAll(cells, sources, w).1)
  {
    CollectAllErrors(cells, sources, w);
    FailingIndicesExact(cells, sources, w);
    var errors, idx := CollectAll(cells, sources, w).1, FailingIndices(cells, sources, w);
    forall k, l | 0 <= k < l < |errors|
      ensures errors[k].0 != errors[l].0
    {
      assert errors[k].0 == cells[idx[k]].key && errors[l].0 == cells[idx[l]].key;
    }
  }

  /** The two batch modes agree: fail-fast succeeds exactly when collect-all
      gathers no error, with the same values, and otherwise reports the
      first error that collect-all gathers. */
  lemma {:induction false} FailFastIsFirstError<T>(cells: seq<Cell<T>>, sources: seq<Source>, w: World)
    ensures var (values, errors) := CollectAll(cells, sources, w);
      FailFast(cells, sources, w) == if errors == [] then Success(values) else Failure(errors[0].1)
  {
    if cells != [] {
      FailFastIsFirstError(cells[..|cells| - 1], sources, w);
    }
  }

  /** Fail-fast fails exactly when some cell fails. */
  lemma {:induction false} FailFastFailsIffSomeFailure<T>(cells: seq<Cell<T>>, sources: seq<Source>, w: World)
    ensures FailFast(cells, sources, w).Success? <==> SucceedsBefore(cells, |cells|, sources, w)
  {
    if cells != [] {
      var n := |cells| - 1;
      var init := cells[..n];
      FailFastFailsIffSomeFailure(init, sources, w);
      assert forall i :: 0 <= i < n ==> init[i] == cells[i];
      assert SucceedsBefore(cells, |cells|, sources, w)
             <==> SucceedsBefore(init, n, sources, w) && ForceResult(cells[n], sources, w).Success?;
    }
  }

  /** Resolved cells answer from their cache: a batch over them gathers no
      error and gives the same values whatever the world looks like. */
  lemma {:induction false} CachedBatchIgnoresWorld<T>(cells: seq<Cell<T>>, sources: seq<Source>, w1: World, w2: World)
    requires forall i :: 0 <= i < |cells| ==> cells[i].state.Resolved?
    ensures CollectAll(cells, sources, w1) == CollectAll(cells, sources, w2)
    ensures CollectAll(cells, sources, w1).1 == []
  {
    if cells != [] {
      CachedBatchIgnoresWorld(cells[..|cells| - 1], sources, w1, w2);
    }
  }

  /** After a successful collect-all pass every cell is resolved. */
  lemma CollectAllResolvesAll<T>(before: seq<Cell<T>>, after: seq<Cell<T>>, sources: seq<Source>, w: World)
    requires CollectAllEffect(before, after, sources, w)
    requires CollectAll(before, sources, w).1 == []
    ensures forall i :: 0 <= i < |after| ==> after[i].state.Resolved?
  {
    FailFastIsFirstError(before, sources, w);
    FailFastFailsIffSomeFailure(before, sources, w);
  }

  /** After a fail-fast pass in world `w1`, the next pass in any world `w2`
      answers from the cache for the items the first pass resolved, and
      reads `w2` afresh for every other item: the one that failed and
      those the pass never reached. */
  lemma FailFastThenRetry<T>(before: seq<Cell<T>>, after: seq<Cell<T>>, sources: seq<Source>, w1: World, w2: World)
    requires FailFastEffect(before, after, sources, w1)
    ensures forall i :: 0 <= i < |before| ==>
              ForceResult(after[i], sources, w2)
              == if SucceedsBefore(before, i, sources, w1) && ForceResult(before[i], sources, w1).Success?
                 then ForceResult(before[i], sources, w1)
                 else ForceResult(before[i], sources, w2)
  {
    forall i | 0 <= i < |before|
      ensures ForceResult(after[i], sources, w2)
              == if SucceedsBefore(before, i, sources, w1) && ForceResult(before[i], sources, w1).Success?
                 then ForceResult(before[i], sources, w1)
                 else ForceResult(before[i], sources, w2)
    {
      if !SucceedsBefore(before, i, sources, w1) || ForceResult(before[i], sources, w1).Failure? {
        assert after[i] == before[i];
      }
    }
  }

  /** After a collect-all pass in world `w1`, the next pass in any world
      `w2` answers from the cache for the items that succeeded and reads
      `w2` afresh for the items that failed. */
  lemma CollectAllThenRetry<T>(before: seq<Cell<T>>, after: seq<Cell<T>>, sources: seq<Source>, w1: World, w2: World)
    requires CollectAllEffect(before, after, sources, w1)
    ensures forall i :: 0 <= i < |before| ==>
              ForceResult(after[i], sources, w2)
              == if ForceResult(before[i], sources, w1).Success?
                 then ForceResult(before[i], sources, w1)
                 else ForceResult(before[i], sources, w2)
  {
    forall i | 0 <= i < |before|
      ensures ForceResult(after[i], sources, w2)
              == if ForceResult(before[i], sources, w1).Success?
                 then ForceResult(before[i], sources, w1)
                 else ForceResult(before[i], sources, w2)
    {
      if ForceResult(before[i], sources, w1).Failure? {
        assert after[i] == before[i];
      }
    }
  }

  /** The cells after `unresolve`: the same items, none of them resolved. */
  function Cleared<T>(cells: seq<Cell<T>>): (r: seq<Cell<T>>)
    ensures |r| == |cells|
    ensures forall i :: 0 <= i < |cells| ==> r[i].(state := cells[i].state) == cells[i] && r[i].state.Unresolved?
  {
    seq(|cells|, i requires 0 <= i < |cells| => cells[i].(state := Unresolved))
  }

  /** A collect-all pass that gathered no error leaves a cache that answers
      the next pass alone: in any later world it gathers the same values
      and again no error. */
  lemma {:induction false} CacheReplaysBatch<T>(before: seq<Cell<T>>, after: seq<Cell<T>>, sources: seq<Source>, w1: World, w2: World)
    requires CollectAllEffect(before, after, sources, w1)
    requires CollectAll(before, sources, w1).1 == []
    ensures CollectAll(after, sources, w2) == CollectAll(before, sources, w1)
  {
    if before != [] {
      var n := |before| - 1;
      var init, initAfter := before[..n], after[..n];
      assert CollectAllEffect(init, initAfter, sources, w1);
      CacheReplaysBatch(init, initAfter, sources, w1, w2);
      assert after[n].key == before[n].key;
      assert ForceResult(before[n], sources, w1).Success?;
      assert ForceResult(after[n], sources, w2) == ForceResult(before[n], sources, w1);
    }
  }

  /** `unresolve` undoes a batch pass, whatever it did: the cells are
      exactly as if they had never been forced. */
  lemma UnresolveUndoesBatch<T>(before: seq<Cell<T>>, after: seq<Cell<T>>, sources: seq<Source>, w: World)
    requires CollectAllEffect(before, after, sources, w) || FailFastEffect(before, after, sources, w)
    ensures Cleared(after) == Cleared(before)
  {
    assert forall i :: 0 <= i < |before| ==> after[i].(state := before[i].state) == before[i];
  }

  /** The resolve, change the environment, resolve, unresolve, resolve
      cycle: the second pass replays the first from the cache, and after
      `unresolve` the third pass reads the new world as a first pass on
      never-forced items would. */
  lemma ResolveUnresolveCycle<T>(initial: seq<Cell<T>>, after: seq<Cell<T>>, sources: seq<Source>, w1: World, w2: World)
    requires forall i :: 0 <= i < |initial| ==> initial[i].state.Unresolved?
    requires CollectAllEffect(initial, after, sources, w1)
    requires CollectAll(initial, sources, w1).1 == []
    ensures CollectAll(after, sources, w2) == CollectAll(initial, sources, w1)
    ensures CollectAll(Cleared(after), sources, w2) == CollectAll(initial, sources, w2)
  {
    CacheReplaysBatch(initial, after, sources, w1, w2);
    UnresolveUndoesBatch(initial, after, sources, w1);
    assert Cleared(initial) == initial;
  }

  // ---------------------------------------------------------------------
  // The lazy cell
  // ---------------------------------------------------------------------

  /** One configuration item: a lazy proxy around its factory. */
  class Item<T> {
    const key: string
    const kind: Kind
    const resolver: Resolver<T>
    /** The sources of the configuration that created the item. */
    const sources: seq<Source>
    var state: CellState<T>
    /** How many times the factory has run. */
    ghost var evaluations: nat
    /** How many times the resolver has been called. */
    ghost var resolverCalls: nat

    function View(): (c: Cell<T>)
      reads this
    {
      Cell(key, kind, resolver, state)
    }

    /** The view and both counters. */
    ghost function Count(): (t: Tally<T>)
      reads this
    {
      Tally(View(), evaluations, resolverCalls)
    }

    /** `__resolved__`. */
    predicate IsResolved()
      reads this
    {
      state.Resolved?
    }

    /** `_create_item_required` / `_create_item_optional`: nothing is looked
        up or resolved yet. */
    constructor (key: string, kind: Kind, resolver: Resolver<T>, sources: seq<Source>)
      ensures View() == Cell(key, kind, resolver, Unresolved) && this.sources == sources
      ensures evaluations == 0 && resolverCalls == 0
    {
      this.key := key;
      this.kind := kind;
      this.resolver := resolver;
      this.sources := sources;
      state := Unresolved;
      evaluations := 0;
      resolverCalls := 0;
    }

    /** Reading the proxy's value. A resolved item answers from its cache
        without running anything; an unresolved one runs its factory once
        and caches a successful result. */
    method Force(w: World) returns (r: Result<Option<T>, Error>)
      modifies this
      ensures r == ForceResult(old(View()), sources, w)
      ensures Forced(old(View()), View(), sources, w)
      ensures IsResolved() <==> r.Success?
      ensures old(state).Resolved? ==>
                state == old(state) && evaluations == old(evaluations) && resolverCalls == old(resolverCalls)
      ensures old(state).Unresolved? ==> evaluations == old(evaluations) + 1
      ensures old(state).Unresolved? ==>
                resolverCalls == old(resolverCalls) + if ResolverInvoked(key, sources, w) then 1 else 0
    {
      if state.Resolved? {
        return Success(state.value);
      }
      evaluations := evaluations + 1;
      var val: Option<string>;
      match kind {
        case Required =>
          var raw := RetrieveRequired(sources, key, w);
          if raw.Failure? {
            return Failure(raw.error);
          }
          val := Some(raw.value);
        case Optional =>
          val := RetrieveOptional(sources, key, w);
      }
      match val {
        case None =>
          r := Success(None);
        case Some(raw) =>
          resolverCalls := resolverCalls + 1;
          r := Apply(resolver, raw);
      }
      if r.Success? {
        state := Resolved(r.value);
      }
    }

    /** Dropping the cached value, so that the next read looks again. */
    method Unresolve()
      modifies this
      ensures View() == old(View()).(state := Unresolved)
      ensures !IsResolved()
      ensures evaluations == old(evaluations) && resolverCalls == old(resolverCalls)
    {
      state := Unresolved;
    }
  }

  // ---------------------------------------------------------------------
  // The registry
  // ---------------------------------------------------------------------

  /** `Configuration.DEFAULT_SOURCES`: the plain environment, then files
      named by `_FILE` variables. */
  const DefaultSources: seq<Source> := [EnvironmentSource(), EnvironmentFileSource()]

  /** A group of configurable items. `order` is the insertion order of the
      `items` and `docs` dictionaries. */
  class Configuration<T> {
    const sources: seq<Source>
    var order: seq<string>
    var items: map<string, Item<T>>
    var docs: map<string, Option<string>>

    /** Both dictionaries have the same keys, listed once each in `order`;
        every item was created by this configuration under its key, and no
        item is registered twice. */
    ghost predicate Valid()
      reads this
    {
      && items.Keys == docs.Keys
      && (forall i :: 0 <= i < |order| ==> order[i] in items)
      && (forall k :: k in items ==> k in order)
      && (forall i, j :: 0 <= i < j < |order| ==> order[i] != order[j])
      && (forall k :: k in items ==> items[k].key == k && items[k].sources == sources)
      && (forall k, k' :: k in items && k' in items && k != k' ==> items[k] != items[k'])
    }

    ghost function Objects(): set<Item<T>>
      reads this
    {
      set k | k in items :: items[k]
    }

    /** The registered items in insertion order: pairwise distinct objects. */
    function ItemsInOrder(): (objs: seq<Item<T>>)
      requires Valid()
      reads this
      ensures |objs| == |order|
      ensures forall i :: 0 <= i < |order| ==> objs[i] == items[order[i]] && objs[i] in Objects()
      ensures forall i, j :: 0 <= i < j < |order| ==> objs[i] != objs[j]
    {
      seq(|order|, i reads this requires 0 <= i < |order| && order[i] in items => items[order[i]])
    }

    /** The items' views in insertion order. */
    ghost function Snapshot(): (cells: seq<Cell<T>>)
      requires Valid()
      reads this, Objects()
      ensures |cells| == |order|
      ensures forall i :: 0 <= i < |order| ==> cells[i] == items[order[i]].View()
    {
      Views(ItemsInOrder())
    }

    /** The items' tallies in insertion order. */
    ghost function Ledger(): (ts: seq<Tally<T>>)
      requires Valid()
      reads this, Objects()
      ensures |ts| == |order|
      ensures CellsOf(ts) == Snapshot()
    {
      Tallies(ItemsInOrder())
    }

    lemma SnapshotKeys()
      requires Valid()
      ensures DistinctKeys(Snapshot())
      ensures forall i :: 0 <= i < |order| ==> Snapshot()[i].key == order[i]
    {
    }

    /** `sources or DEFAULT_SOURCES`: None and an empty collection both
        select the defaults; both dictionaries start empty. */
    constructor (sources: Option<seq<Source>>)
      ensures Valid()
      ensures this.sources == if sources.Some? && sources.value != [] then sources.value else DefaultSources
      ensures items == map[] && docs == map[] && order == []
    {
      this.sources := if sources.Some? && sources.value != [] then sources.value else DefaultSources;
      items := map[];
      docs := map[];
      order := [];
    }

    /** `_register_item`: a key already in either dictionary is rejected
        before anything changes; otherwise the item and its documentation
        are added under the key. */
    method RegisterItem(key: string, item: Item<T>, doc: Option<string>) returns (r: Outcome<Error>)
      requires Valid()
      requires item.key == key && item.sources == sources && item !in Objects()
      modifies this
      ensures Valid()
      ensures key in old(items) || key in old(docs) ==>
                r == Fail(DuplicateKey(key)) && items == old(items) && docs == old(docs) && order == old(order)
      ensures key !in old(items) && key !in old(docs) ==>
                && r == Pass
                && items == old(items)[key := item] && docs == old(docs)[key := doc]
                && order == old(order) + [key]
    {
      if key in items {
        return Fail(DuplicateKey(key));
      }
      if key in docs {
        return Fail(DuplicateKey(key));
      }
      items := items[key := item];
      docs := docs[key := doc];
      order := order + [key];
      r := Pass;
    }

    /** The `required()` decorator applied to a resolver: create the item,
        register it, hand it back unresolved. */
    method Required(key: string, resolver: Resolver<T>, doc: Option<string>) returns (r: Result<Item<T>, Error>)
      requires Valid()
      modifies this
      ensures Valid()
      ensures key in old(items) ==>
                r == Failure(DuplicateKey(key)) && items == old(items) && docs == old(docs) && order == old(order)
      ensures key !in old(items) ==>
                && r.Success? && fresh(r.value)
                && r.value.View() == Cell(key, Kind.Required, resolver, Unresolved)
                && items == old(items)[key := r.value] && docs == old(docs)[key := doc]
                && order == old(order) + [key]
    {
      var item := new Item(key, Kind.Required, resolver, sources);
      var o := RegisterItem(key, item, doc);
      if o.Fail? {
        return Failure(o.error);
      }
      r := Success(item);
    }

    /** The `optional()` decorator applied to a resolver. */
    method Optional(key: string, resolver: Resolver<T>, doc: Option<string>) returns (r: Result<Item<T>, Error>)
      requires Valid()
      modifies this
      ensures Valid()
      ensures key in old(items) ==>
                r == Failure(DuplicateKey(key)) && items == old(items) && docs == old(docs) && order == old(order)
      ensures key !in old(items) ==>
                && r.Success? && fresh(r.value)
                && r.value.View() == Cell(key, Kind.Optional, resolver, Unresolved)
                && items == old(items)[key := r.value] && docs == old(docs)[key := doc]
                && order == old(order) + [key]
    {
      var item := new Item(key, Kind.Optional, resolver, sources);
      var o := RegisterItem(key, item, doc);
      if o.Fail? {
        return Failure(o.error);
      }
      r := Success(item);
    }

    /** Fail-fast batch resolution (`resolve_failfast`): force every item in
        insertion order, stop at the first error and raise it as it is. */
    method ResolveFailFast(w: World) returns (r: Result<map<string, Option<T>>, Error>)
      requires Valid()
      modifies Objects()
      ensures Valid()
      ensures r == FailFast(old(Snapshot()), sources, w)
      ensures FailFastEffect(old(Snapshot()), Snapshot(), sources, w)
      ensures FailFastCounted(old(Ledger()), Ledger(), sources, w)
    {
      var objs := ItemsInOrder();
      r := ForceFailFast(objs, sources, w);
      FailFastCountedMeans(old(Ledger()), Ledger(), sources, w);
    }

    /** `fetch_all`: the fail-fast pass, values discarded. */
    method FetchAll(w: World) returns (r: Outcome<Error>)
      requires Valid()
      modifies Objects()
      ensures Valid()
      ensures r == match FailFast(old(Snapshot()), sources, w)
                   case Success(_) => Pass
                   case Failure(e) => Fail(e)
      ensures FailFastEffect(old(Snapshot()), Snapshot(), sources, w)
      ensures FailFastCounted(old(Ledger()), Ledger(), sources, w)
    {
      var values := ResolveFailFast(w);
      r := if values.Success? then Pass else Fail(values.error);
    }

    /** Collect-all batch resolution (`resolve`): force every item in
        insertion order, keep going past errors, and raise one
        `BatchResolutionFailure` carrying every error if there was any.
        Each item's factory runs at most once: only if it was unresolved. */
    method ResolveAll(w: World) returns (r: Result<map<string, Option<T>>, BatchResolutionFailure>)
      requires Valid()
      modifies Objects()
      ensures Valid()
      ensures CollectAll(old(Snapshot()), sources, w).1 == [] ==>
                r == Success(CollectAll(old(Snapshot()), sources, w).0)
      ensures CollectAll(old(Snapshot()), sources, w).1 != [] ==>
                && r.Failure? && fresh(r.error)
                && r.error.errors == CollectAll(old(Snapshot()), sources, w).1
                && r.error.message == Join(MessageLines(r.error.errors), "\n")
      ensures CollectAllEffect(old(Snapshot()), Snapshot(), sources, w)
      ensures CollectAllCounted(old(Ledger()), Ledger(), sources, w)
    {
      SnapshotKeys();
      CollectAllErrorKeysDistinct(Snapshot(), sources, w);
      var objs := ItemsInOrder();
      var values, errors := ForceCollectAll(objs, sources, w);
      CollectAllCountedMeans(old(Ledger()), Ledger(), sources, w);
      if errors == [] {
        r := Success(values);
      } else {
        var failure := new BatchResolutionFailure(errors);
        r := Failure(failure);
      }
    }

    /** `unresolve`: every item drops its cached value. */
    method Unresolve()
      requires Valid()
      modifies Objects()
      ensures Valid()
      ensures Snapshot() == Cleared(old(Snapshot()))
      ensures forall k :: k in items ==>
                items[k].evaluations == old(items[k].evaluations) && items[k].resolverCalls == old(items[k].resolverCalls)
    {
      var objs := ItemsInOrder();
      UnresolveEach(objs);
    }
  }

  /** The views of a sequence of items. */
  ghost function Views<T>(objs: seq<Item<T>>): (cells: seq<Cell<T>>)
    reads set o | o in objs
    ensures |cells| == |objs|
    ensures forall i :: 0 <= i < |objs| ==> cells[i] == objs[i].View()
  {
    seq(|objs|, i reads set o | o in objs requires 0 <= i < |objs| => objs[i].View())
  }

  /** The tallies of a sequence of items. */
  ghost function Tallies<T>(objs: seq<Item<T>>): (ts: seq<Tally<T>>)
    reads set o | o in objs
    ensures |ts| == |objs|
    ensures forall i :: 0 <= i < |objs| ==> ts[i] == objs[i].Count()
  {
    seq(|objs|, i reads set o | o in objs requires 0 <= i < |objs| => objs[i].Count())
  }

  /** The loop of `unresolve` over the items. */
  method UnresolveEach<T>(objs: seq<Item<T>>)
    requires forall i, j :: 0 <= i < j < |objs| ==> objs[i] != objs[j]
    modifies set o | o in objs
    ensures Views(objs) == Cleared(old(Views(objs)))
    ensures forall j :: 0 <= j < |objs| ==>
              objs[j].evaluations == old(objs[j].evaluations) && objs[j].resolverCalls == old(objs[j].resolverCalls)
  {
    ghost var before := Views(objs);
    for i := 0 to |objs|
      invariant forall j :: 0 <= j < i ==> objs[j].View() == before[j].(state := Unresolved)
      invariant forall j :: i <= j < |objs| ==> objs[j].View() == before[j]
      invariant forall j :: 0 <= j < |objs| ==>
                  objs[j].evaluations == old(objs[j].evaluations) && objs[j].resolverCalls == old(objs[j].resolverCalls)
    {
      objs[i].Unresolve();
    }
  }

  /** Forcing the item at index `i`: its tally changes as `Counted` says,
      and no other item's does. */
  method ForceAt<T>(objs: seq<Item<T>>, i: nat, sources: seq<Source>, w: World) returns (r: Result<Option<T>, Error>)
    requires i < |objs|
    requires forall j, k :: 0 <= j < k < |objs| ==> objs[j] != objs[k]
    requires objs[i].sources == sources
    modifies objs[i]
    ensures r == ForceResult(old(objs[i].View()), sources, w)
    ensures Counted(old(objs[i].Count()), objs[i].Count(), sources, w)
    ensures Tallies(objs) == old(Tallies(objs))[i := objs[i].Count()]
  {
    r := objs[i].Force(w);
  }

  /** The loop of `resolve_failfast` over the items in order: force each,
      stop at the first error. */
  method ForceFailFast<T>(objs: seq<Item<T>>, sources: seq<Source>, w: World) returns (r: Result<map<string, Option<T>>, Error>)
    requires forall i, j :: 0 <= i < j < |objs| ==> objs[i] != objs[j]
    requires forall i :: 0 <= i < |objs| ==> objs[i].sources == sources
    modifies set o | o in objs
    ensures r == FailFast(old(Views(objs)), sources, w)
    ensures FailFastCounted(old(Tallies(objs)), Tallies(objs), sources, w)
  {
    ghost var before, cells := Tallies(objs), Views(objs);
    ghost var now := before;
    var values: map<string, Option<T>> := map[];
    var i := 0;
    while i < |objs|
      invariant 0 <= i <= |objs|
      invariant FailFast(cells[..i], sources, w) == Success(values)
      invariant CellsOf(before) == cells
      invariant Tallies(objs) == now
      invariant CountedPrefix(before, now, i, sources, w)
    {
      var o := ForceAt(objs, i, sources, w);
      CountedPrefixStep(before, now, i, objs[i].Count(), sources, w);
      now := now[i := objs[i].Count()];
      FailFastStep(cells, i, sources, w);
      match o {
        case Failure(e) =>
          FailFastCountedOnFailure(before, now, i, sources, w);
          return Failure(e);
        case Success(v) =>
          values := values[objs[i].key := v];
      }
      i := i + 1;
    }
    assert cells[..|objs|] == cells;
    FailFastCountedOnSuccess(before, now, sources, w);
    r := Success(values);
  }

  /** The loop of `resolve` over the items in order: force each, keep the
      values and the errors, stop at none. Each factory runs once, and only
      for an item that was not resolved. */
  method ForceCollectAll<T>(objs: seq<Item<T>>, sources: seq<Source>, w: World) returns (values: map<string, Option<T>>, errors: Entries)
    requires forall i, j :: 0 <= i < j < |objs| ==> objs[i] != objs[j]
    requires forall i :: 0 <= i < |objs| ==> objs[i].sources == sources
    modifies set o | o in objs
    ensures (values, errors) == CollectAll(old(Views(objs)), sources, w)
    ensures CollectAllCounted(old(Tallies(objs)), Tallies(objs), sources, w)
  {
    ghost var before, cells := Tallies(objs), Views(objs);
    ghost var now := before;
    values, errors := map[], [];
    for i := 0 to |objs|
      invariant (values, errors) == CollectAll(cells[..i], sources, w)
      invariant CellsOf(before) == cells
      invariant Tallies(objs) == now
      invariant CountedPrefix(before, now, i, sources, w)
    {
      var o := ForceAt(objs, i, sources, w);
      CountedPrefixStep(before, now, i, objs[i].Count(), sources, w);
      now := now[i := objs[i].Count()];
      CollectAllStep(cells, i, sources, w);
      match o {
        case Success(v) =>
          values := values[objs[i].key := v];
        case Failure(e) =>
          errors := errors + [(objs[i].key, e)];
      }
    }
    assert cells[..|objs|] == cells;
  }

  /** The first `i` items were forced and counted as `Counted` says; the
      others are untouched. With `i` the number of items, this is the
      effect of a collect-all pass. */
  ghost predicate CountedPrefix<T>(before: seq<Tally<T>>, after: seq<Tally<T>>, i: nat, sources: seq<Source>, w: World)
  {
    && |after| == |before| && i <= |before|
    && (forall j :: 0 <= j < i ==> Counted(before[j], after[j], sources, w))
    && (forall j :: i <= j < |before| ==> after[j] == before[j])
  }

  /** The effect of a collect-all pass on the items' tallies: every item
      was forced and counted. */
  ghost predicate CollectAllCounted<T>(before: seq<Tally<T>>, after: seq<Tally<T>>, sources: seq<Source>, w: World)
  {
    CountedPrefix(before, after, |before|, sources, w)
  }

  lemma CountedPrefixStep<T>(before: seq<Tally<T>>, after: seq<Tally<T>>, i: nat, t: Tally<T>, sources: seq<Source>, w: World)
    requires CountedPrefix(before, after, i, sources, w) && i < |before|
    requires Counted(after[i], t, sources, w)
    ensures CountedPrefix(before, after[i := t], i + 1, sources, w)
  {
  }

  /** What a whole counted pass promises, item by item: every view is
      `Forced`, and each counter grows by one exactly for an item that was
      unresolved (the resolver: that also found a value). */
  lemma CollectAllCountedMeans<T>(before: seq<Tally<T>>, after: seq<Tally<T>>, sources: seq<Source>, w: World)
    requires CollectAllCounted(before, after, sources, w)
    ensures CollectAllEffect(CellsOf(before), CellsOf(after), sources, w)
    ensures forall j :: 0 <= j < |before| ==>
              after[j].evaluations == before[j].evaluations + if before[j].cell.state.Unresolved? then 1 else 0
    ensures forall j :: 0 <= j < |before| ==>
              after[j].resolverCalls == before[j].resolverCalls
              + if before[j].cell.state.Unresolved? && ResolverInvoked(before[j].cell.key, sources, w) then 1 else 0
  {
  }

  /** A fail-fast loop that went through every item had the counted effect
      its specification describes. */
  lemma FailFastCountedOnSuccess<T>(before: seq<Tally<T>>, after: seq<Tally<T>>, sources: seq<Source>, w: World)
    requires CountedPrefix(before, after, |before|, sources, w)
    requires FailFast(CellsOf(before)[..|before|], sources, w).Success?
    ensures FailFast(CellsOf(before), sources, w).Success?
    ensures FailFastCounted(before, after, sources, w)
  {
    var cells := CellsOf(before);
    assert cells[..|before|] == cells;
    FailFastPrefixSucceeds(cells, |before|, sources, w);
  }

  /** The effect of a fail-fast pass on the items' tallies: every item up
      to the first failure was forced and counted as `Counted` says; the
      items after it are untouched, their factories and resolvers never
      run. */
  ghost predicate FailFastCounted<T>(before: seq<Tally<T>>, after: seq<Tally<T>>, sources: seq<Source>, w: World)
  {
    && |after| == |before|
    && forall i :: 0 <= i < |before| ==>
         if SucceedsBefore(CellsOf(before), i, sources, w) then Counted(before[i], after[i], sources, w)
         else after[i] == before[i]
  }

  /** What `FailFastCounted` promises, item by item: the views change as
      `FailFastEffect` says, and each counter grows by one exactly for an
      unresolved item that the pass reached. */
  lemma FailFastCountedMeans<T>(before: seq<Tally<T>>, after: seq<Tally<T>>, sources: seq<Source>, w: World)
    requires FailFastCounted(before, after, sources, w)
    ensures FailFastEffect(CellsOf(before), CellsOf(after), sources, w)
    ensures forall j :: 0 <= j < |before| ==>
              after[j].evaluations == before[j].evaluations
              + if SucceedsBefore(CellsOf(before), j, sources, w) && before[j].cell.state.Unresolved? then 1 else 0
    ensures forall j :: 0 <= j < |before| ==>
              after[j].resolverCalls == before[j].resolverCalls
              + if SucceedsBefore(CellsOf(before), j, sources, w) && before[j].cell.state.Unresolved?
                   && ResolverInvoked(before[j].cell.key, sources, w) then 1 else 0
  {
  }

  /** A fail-fast loop that stopped at the failure at index `i` had the
      counted effect its specification describes. */
  lemma FailFastCountedOnFailure<T>(before: seq<Tally<T>>, after: seq<Tally<T>>, i: nat, sources: seq<Source>, w: World)
    requires i < |before| && CountedPrefix(before, after, i + 1, sources, w)
    requires FailFast(CellsOf(before)[..i], sources, w).Success? && ForceResult(before[i].cell, sources, w).Failure?
    ensures FailFast(CellsOf(before), sources, w) == Failure(ForceResult(before[i].cell, sources, w).error)
    ensures FailFastCounted(before, after, sources, w)
  {
    var cells := CellsOf(before);
    FailFastEffectOnFailure(cells, CellsOf(after), i, sources, w);
  }

  /** A fail-fast pass that got past index `i` saw only successes before it. */
  lemma FailFastPrefixSucceeds<T>(cells: seq<Cell<T>>, i: nat, sources: seq<Source>, w: World)
    requires i <= |cells| && FailFast(cells[..i], sources, w).Success?
    ensures SucceedsBefore(cells, i, sources, w)
  {
    FailFastFailsIffSomeFailure(cells[..i], sources, w);
    assert forall j :: 0 <= j < i ==> cells[..i][j] == cells[j];
  }

  /** A fail-fast pass that stopped at the failure at index `i` had the
      effect its specification describes. */
  lemma FailFastEffectOnFailure<T>(before: seq<Cell<T>>, after: seq<Cell<T>>, i: nat, sources: seq<Source>, w: World)
    requires |after| == |before| && i < |before|
    requires FailFast(before[..i], sources, w).Success? && ForceResult(before[i], sources, w).Failure?
    requires forall j :: 0 <= j <= i ==> Forced(before[j], after[j], sources, w)
    requires forall j :: i < j < |before| ==> after[j] == before[j]
    ensures FailFast(before, sources, w) == Failure(ForceResult(before[i], sources, w).error)
    ensures FailFastEffect(before, after, sources, w)
    ensures forall j :: 0 <= j < |before| ==> (SucceedsBefore(before, j, sources, w) <==> j <= i)
  {
    FailFastStep(before, i, sources, w);
    FailFastStopsAt(before, i, sources, w);
    FailFastPrefixSucceeds(before, i, sources, w);
    forall j | i < j < |before|
      ensures !SucceedsBefore(before, j, sources, w)
    {
      assert !ForceResult(before[i], sources, w).Success?;
    }
  }

  /** One step of the collect-all pass, in terms of the prefix done so far. */
  lemma CollectAllStep<T>(cells: seq<Cell<T>>, i: nat, sources: seq<Source>, w: World)
    requires i < |cells|
    ensures var (values, errors) := CollectAll(cells[..i], sources, w);
            var c := cells[i];
      CollectAll(cells[..i + 1], sources, w)
      == match ForceResult(c, sources, w)
         case Success(v) => (values[c.key := v], errors)
         case Failure(e) => (values, errors + [(c.key, e)])
  {
    assert cells[..i + 1][..i] == cells[..i];
  }

  /** One step of the fail-fast pass, in terms of the prefix done so far. */
  lemma FailFastStep<T>(cells: seq<Cell<T>>, i: nat, sources: seq<Source>, w: World)
    requires i < |cells|
    ensures FailFast(cells[..i + 1], sources, w)
      == match FailFast(cells[..i], sources, w)
         case Failure(e) => Failure(e)
         case Success(values) =>
           (match ForceResult(cells[i], sources, w)
            case Success(v) => Success(values[cells[i].key := v])
            case Failure(e) => Failure(e))
  {
    assert cells[..i + 1][..i] == cells[..i];
  }

  /** A failure at index `i`, after successes before it, is what fail-fast
      reports for the whole sequence. */
  lemma {:induction false} FailFastStopsAt<T>(cells: seq<Cell<T>>, i: nat, sources: seq<Source>, w: World)
    requires i < |cells|
    requires FailFast(cells[..i + 1], sources, w).Failure?
    ensures FailFast(cells, sources, w) == FailFast(cells[..i + 1], sources, w)
    decreases |cells|
  {
    if |cells| > i + 1 {
      var init := cells[..|cells| - 1];
      assert init[..i + 1] == cells[..i + 1];
      FailFastStopsAt(init, i, sources, w);
    } else {
      assert cells[..i + 1] == cells;
    }
  }
}
