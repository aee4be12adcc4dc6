/**
 * The context keys and contexts of the Lustre object layer
 * (drivers/staging/lustre/lustre/obdclass/lu_object.c): a global table of
 * 40 key slots whose version counter moves whenever a key is registered,
 * deregistered, quiesced or revived; contexts that hold one value per key,
 * created on demand for the keys whose tags they share, and that go through
 * init, enter, exit and fini; the order of the object hash table; the number
 * of objects purged to hold the object cache to its limit; and the lookup of
 * the slice of an object that belongs to a device type.
 */
module LuObject {
  import opened Common

  /** LU_CONTEXT_KEY_NR: the slots of lu_keys[]. */
  const CONTEXT_KEY_NR: nat := 40

  /**
   * A 32-bit word of enum lu_context_tag flags, as the set of its bit
   * positions: `a & b` is nonzero when the sets meet, `|` is union.
   */
  type Tags = set<nat>

  /** The bit positions of the tags this file tests (lu_object.h is not part of this model). */
  const LCT_HAS_EXIT: nat := 28
  const LCT_NOREF: nat := 29
  const LCT_QUIESCENT: nat := 30
  const LCT_REMEMBER: nat := 31

  /** MAX_ERRNO: an ERR_PTR carries an error number from 1 to 4095. */
  type ErrNo = x: int | 1 <= x <= 4095 witness 1

  /** ++ on the unsigned int key_set_version: always a new value, wrapping to 0 after 2^32 - 1. */
  function NextVersion(v: U32): (r: U32)
    ensures r != v
    ensures v + 1 < U32_LIMIT ==> r == v + 1
    ensures v + 1 == U32_LIMIT ==> r == 0
  {
    (v + 1) % U32_LIMIT
  }

  /** struct lu_context_key: its tags, the slot it was given, its use count and whether it has an exit method. */
  class ContextKey {
    var tags: Tags
    var index: nat
    var used: nat
    const hasExit: bool

    /** LU_CONTEXT_KEY_INIT: tags and methods set, not registered. */
    constructor (tags: Tags, hasExit: bool)
      ensures this.tags == tags && this.hasExit == hasExit && index == 0 && used == 0
    {
      this.tags := tags;
      this.hasExit := hasExit;
      index := 0;
      used := 0;
    }
  }

  /** The lowest empty slot from `from` on. */
  function FirstFree(slots: seq<ContextKey?>, from: nat): Option<nat>
    decreases |slots| - from
  {
    if from >= |slots| then None
    else if slots[from] == null then Some(from)
    else FirstFree(slots, from + 1)
  }

  /** FirstFree finds the lowest empty slot, and finds none only when every slot is taken. */
  lemma {:induction false} FirstFreeLowest(slots: seq<ContextKey?>, from: nat)
    ensures var r := FirstFree(slots, from);
      && (r.Some? ==> from <= r.value < |slots| && slots[r.value] == null
                      && forall j :: from <= j < r.value ==> slots[j] != null)
      && (r.None? ==> forall j :: from <= j < |slots| ==> slots[j] != null)
    decreases |slots| - from
  {
    if from < |slots| && slots[from] != null {
      FirstFreeLowest(slots, from + 1);
    }
  }

  /** Registering a key and deregistering it again leaves the table as it was. */
  lemma RegisterDegisterRestores(slots: seq<ContextKey?>, key: ContextKey)
    requires FirstFree(slots, 0).Some?
    ensures var i := FirstFree(slots, 0).value;
      i < |slots| && slots[i := key][i := null] == slots
  {
    FirstFreeLowest(slots, 0);
    var i := FirstFree(slots, 0).value;
    assert slots[i := key][i := null] == slots[i := null];
  }

  /** A freshly allocated value array: every slot NULL. */
  const NO_VALUES: seq<nat> := seq(CONTEXT_KEY_NR, _ => 0)

  /** What keys_fill sees of a registered key. */
  datatype KeyView = KeyView(tags: Tags, hasExit: bool)

  /** The key table lu_keys[] with key_set_version. */
  class KeyRegistry {
    const slots: array<ContextKey?>
    var version: U32

    ghost predicate Valid()
      reads this
    {
      slots.Length == CONTEXT_KEY_NR
    }

    /** The registered keys. */
    ghost function Keys(): set<ContextKey>
      reads this, slots
    {
      set i | 0 <= i < slots.Length && slots[i] != null :: slots[i]
    }

    /** The table as values: the tags and exit method of the key in each slot. */
    ghost function View(): (v: seq<Option<KeyView>>)
      requires Valid()
      reads this, slots, Keys()
      ensures |v| == CONTEXT_KEY_NR
      ensures forall i :: 0 <= i < CONTEXT_KEY_NR ==> (v[i].Some? <==> slots[i] != null)
    {
      seq(CONTEXT_KEY_NR, i requires 0 <= i < CONTEXT_KEY_NR reads this, slots, Keys() =>
        if slots[i] == null then None else Some(KeyView(slots[i].tags, slots[i].hasExit)))
    }

    /** The empty table of module load. */
    constructor ()
      ensures Valid() && fresh(slots) && version == 0
      ensures forall i :: 0 <= i < CONTEXT_KEY_NR ==> slots[i] == null
    {
      slots := new ContextKey?[CONTEXT_KEY_NR](_ => null);
      version := 0;
    }

    /**
     * lu_context_key_register: the key takes the lowest empty slot, records
     * its index, gets a use count of 1 and the version moves; with every slot
     * taken the result is -ENFILE and nothing changes.
     */
    method Register(key: ContextKey) returns (rc: int)
      requires Valid() && key.tags != {}
      modifies this, slots, key
      ensures Valid() && key.tags == old(key.tags)
      ensures FirstFree(old(slots[..]), 0).None? ==>
        && rc == -ENFILE && slots[..] == old(slots[..]) && version == old(version)
        && key.index == old(key.index) && key.used == old(key.used)
      ensures FirstFree(old(slots[..]), 0).Some? ==>
        var i := FirstFree(old(slots[..]), 0).value;
        && rc == 0 && i < CONTEXT_KEY_NR && slots[..] == old(slots[..])[i := key]
        && key.index == i && key.used == 1 && version == NextVersion(old(version))
    {
      rc := -ENFILE;
      for i := 0 to CONTEXT_KEY_NR
        invariant FirstFree(slots[..], i) == FirstFree(slots[..], 0)
        invariant slots[..] == old(slots[..]) && version == old(version)
        invariant key.index == old(key.index) && key.used == old(key.used) && key.tags == old(key.tags)
      {
        if slots[i] == null {
          key.index := i;
          key.used := 1;
          slots[i] := key;
          rc := 0;
          version := NextVersion(version);
          return;
        }
      }
    }

    /**
     * lu_context_key_quiesce: a key that is not quiescent becomes so and the
     * version moves; a quiescent one is left alone.
     */
    method Quiesce(key: ContextKey)
      modifies this, key
      ensures LCT_QUIESCENT !in old(key.tags) ==>
        key.tags == old(key.tags) + {LCT_QUIESCENT} && version == NextVersion(old(version))
      ensures LCT_QUIESCENT in old(key.tags) ==> key.tags == old(key.tags) && version == old(version)
      ensures key.index == old(key.index) && key.used == old(key.used)
    {
      if LCT_QUIESCENT !in key.tags {
        key.tags := key.tags + {LCT_QUIESCENT};
        version := NextVersion(version);
      }
    }

    /** lu_context_key_revive: the key is no longer quiescent and the version moves. */
    method Revive(key: ContextKey)
      modifies this, key
      ensures key.tags == old(key.tags) - {LCT_QUIESCENT} && LCT_QUIESCENT !in key.tags
      ensures version == NextVersion(old(version))
      ensures key.index == old(key.index) && key.used == old(key.used)
    {
      key.tags := key.tags - {LCT_QUIESCENT};
      version := NextVersion(version);
    }

    /**
     * lu_context_key_degister: the key is quiesced, the version moves once
     * more and the slot at the key's index is emptied.
     */
    method Degister(key: ContextKey)
      requires Valid() && key.index < CONTEXT_KEY_NR && key.used >= 1
      modifies this, slots, key
      ensures Valid()
      ensures slots[..] == old(slots[..])[old(key.index) := null]
      ensures key.tags == old(key.tags) + {LCT_QUIESCENT} && key.index == old(key.index)
      ensures version == NextVersion(if LCT_QUIESCENT !in old(key.tags) then NextVersion(old(version)) else old(version))
    {
      Quiesce(key);
      version := NextVersion(version);
      if slots[key.index] != null {
        slots[key.index] := null;
      }
    }
  }

  /** A slot keys_fill creates a value for: empty, with a registered, tag-sharing key that is not quiescent. */
  predicate Wanted(k: Option<KeyView>, cur: nat, ctxTags: Tags)
  {
    cur == 0 && k.Some? && k.value.tags * ctxTags != {} && LCT_QUIESCENT !in k.value.tags
  }

  /** What lct_init gives back: a pointer (0 for NULL) or an encoded error. */
  datatype InitResult = Made(ptr: nat) | Failed(errno: ErrNo)

  /** The outcome of one pass of keys_fill: its result and the context's values and tags. */
  datatype FillOutcome = FillOutcome(rc: int, values: seq<nat>, tags: Tags)

  /** The outcome of keys_fill at one slot: go on with these values and tags, or stop with an error. */
  datatype FillStepResult = Next(values: seq<nat>, tags: Tags) | Stop(rc: int)

  /**
   * keys_fill at slot `i`, whose key is `k`: a wanted slot whose module can
   * be pinned (or that needs no reference) gets the value lct_init makes,
   * and the context gains LCT_HAS_EXIT when the key has an exit method; an
   * error from lct_init stops the pass.
   */
  function FillStep(k: Option<KeyView>, i: nat, values: seq<nat>, tags: Tags,
                    moduleGet: nat -> bool, init: nat -> InitResult): (r: FillStepResult)
    requires i < |values|
    ensures r.Next? ==> |r.values| == |values|
  {
    if !Wanted(k, values[i], tags) || (LCT_NOREF !in tags && !moduleGet(i)) then Next(values, tags)
    else if init(i).Failed? then Stop(-(init(i).errno as int))
    else Next(values[i := init(i).ptr], if k.value.hasExit then tags + {LCT_HAS_EXIT} else tags)
  }

  /** One pass of keys_fill over the slots from `i` on. */
  function FillFrom(view: seq<Option<KeyView>>, i: nat, values: seq<nat>, tags: Tags,
                    moduleGet: nat -> bool, init: nat -> InitResult): (r: FillOutcome)
    requires |view| == |values| && i <= |values|
    ensures |r.values| == |values|
    decreases |values| - i
  {
    if i == |values| then FillOutcome(0, values, tags)
    else
      match FillStep(view[i], i, values, tags, moduleGet, init)
      case Stop(rc) => FillOutcome(rc, values, tags)
      case Next(values', tags') => FillFrom(view, i + 1, values', tags', moduleGet, init)
  }

  /** One step changes at most slot `i`, to what lct_init made for a wanted key, and only adds tags. */
  lemma FillStepOnlyFillsWanted(k: Option<KeyView>, i: nat, values: seq<nat>, tags: Tags,
                                moduleGet: nat -> bool, init: nat -> InitResult)
    requires i < |values|
    ensures var st := FillStep(k, i, values, tags, moduleGet, init);
      st.Next? ==>
        && tags <= st.tags && (LCT_NOREF in st.tags <==> LCT_NOREF in tags)
        && (forall j :: 0 <= j < |values| && j != i ==> st.values[j] == values[j])
        && (st.values[i] != values[i] ==>
              && values[i] == 0 && k.Some? && LCT_QUIESCENT !in k.value.tags
              && k.value.tags * tags != {} && init(i) == Made(st.values[i]))
  {
  }

  /**
   * keys_fill never overwrites a value: a slot it changes was empty, is at
   * or after `i`, and holds what lct_init made for a registered key that is
   * not quiescent and shares the context's tags; the tags only gain bits.
   */
  lemma {:induction false} FillOnlyFillsWanted(view: seq<Option<KeyView>>, i: nat, values: seq<nat>, tags: Tags,
                                               moduleGet: nat -> bool, init: nat -> InitResult)
    requires |view| == |values| && i <= |values|
    ensures var r := FillFrom(view, i, values, tags, moduleGet, init);
      && tags <= r.tags
      && (LCT_NOREF in r.tags <==> LCT_NOREF in tags)
      && forall j :: 0 <= j < |values| && r.values[j] != values[j] ==>
           && i <= j && values[j] == 0 && view[j].Some?
           && LCT_QUIESCENT !in view[j].value.tags && view[j].value.tags * r.tags != {}
           && init(j) == Made(r.values[j])
    decreases |values| - i
  {
    if i < |values| {
      var st := FillStep(view[i], i, values, tags, moduleGet, init);
      FillStepOnlyFillsWanted(view[i], i, values, tags, moduleGet, init);
      if st.Next? {
        FillOnlyFillsWanted(view, i + 1, st.values, st.tags, moduleGet, init);
        var r := FillFrom(view, i + 1, st.values, st.tags, moduleGet, init);
        assert FillFrom(view, i, values, tags, moduleGet, init) == r;
        assert tags <= r.tags;
      }
    }
  }

  /**
   * A pass that succeeds gives every wanted slot from `i` on whose module can
   * be pinned the value its key's lct_init made.
   */
  lemma {:induction false} FillComplete(view: seq<Option<KeyView>>, i: nat, values: seq<nat>, tags: Tags,
                                        moduleGet: nat -> bool, init: nat -> InitResult)
    requires |view| == |values| && i <= |values|
    ensures var r := FillFrom(view, i, values, tags, moduleGet, init);
      r.rc == 0 ==>
        forall j :: i <= j < |values| && Wanted(view[j], values[j], tags) && (LCT_NOREF in tags || moduleGet(j)) ==>
          init(j).Made? && r.values[j] == init(j).ptr
    decreases |values| - i
  {
    if i < |values| {
      var st := FillStep(view[i], i, values, tags, moduleGet, init);
      FillStepOnlyFillsWanted(view[i], i, values, tags, moduleGet, init);
      if st.Next? {
        FillComplete(view, i + 1, st.values, st.tags, moduleGet, init);
        FillOnlyFillsWanted(view, i + 1, st.values, st.tags, moduleGet, init);
        var r := FillFrom(view, i + 1, st.values, st.tags, moduleGet, init);
        assert FillFrom(view, i, values, tags, moduleGet, init) == r;
        forall j | i < j < |values| && Wanted(view[j], values[j], tags)
          ensures Wanted(view[j], st.values[j], st.tags)
        {
          assert view[j].value.tags * st.tags != {};
        }
      }
    }
  }

  /** A pass that fails returns the negated error number of a key's lct_init. */
  lemma {:induction false} FillError(view: seq<Option<KeyView>>, i: nat, values: seq<nat>, tags: Tags,
                                     moduleGet: nat -> bool, init: nat -> InitResult)
    requires |view| == |values| && i <= |values|
    ensures var r := FillFrom(view, i, values, tags, moduleGet, init);
      r.rc <= 0 && (r.rc != 0 ==> exists j :: i <= j < |values| && init(j).Failed? && r.rc == -(init(j).errno as int))
    decreases |values| - i
  {
    if i < |values| {
      var st := FillStep(view[i], i, values, tags, moduleGet, init);
      if st.Next? {
        FillError(view, i + 1, st.values, st.tags, moduleGet, init);
      }
    }
  }

  /** The indices whose exit method lu_context_exit calls: filled slots whose key has one. */
  function ExitCalls(view: seq<Option<KeyView>>, values: seq<nat>, i: nat): (r: seq<nat>)
    requires |view| == |values| && i <= |values|
    requires forall j :: i <= j < |values| && values[j] != 0 ==> view[j].Some?
    decreases |values| - i
  {
    if i == |values| then []
    else if values[i] != 0 && view[i].value.hasExit then [i] + ExitCalls(view, values, i + 1)
    else ExitCalls(view, values, i + 1)
  }

  /** lu_context_exit calls each exit method once, in slot order, for exactly the filled slots whose key has one. */
  lemma {:induction false} ExitCallsExactly(view: seq<Option<KeyView>>, values: seq<nat>, i: nat)
    requires |view| == |values| && i <= |values|
    requires forall j :: i <= j < |values| && values[j] != 0 ==> view[j].Some?
    ensures var r := ExitCalls(view, values, i);
      && (forall j :: j in r <==> i <= j < |values| && values[j] != 0 && view[j].value.hasExit)
      && (forall a, b :: 0 <= a < b < |r| ==> r[a] < r[b])
    decreases |values| - i
  {
    if i < |values| {
      ExitCallsExactly(view, values, i + 1);
      var rest := ExitCalls(view, values, i + 1);
      forall k | 0 <= k < |rest|
        ensures rest[k] > i
      {
        assert rest[k] in rest;
      }
    }
  }

  /** enum lu_context_state, with the all-zero state of a context before lu_context_init. */
  datatype ContextState = Zeroed | Initialized | Entered | Left | Finalized

  /** struct lu_context: state, tags, the value array (NULL when absent) and the version it was filled at. */
  class Context {
    var state: ContextState
    var tags: Tags
    var hasValues: bool
    var values: seq<nat>
    var version: U32
    var remembered: bool

    ghost predicate Valid()
      reads this
    {
      |values| == if hasValues then CONTEXT_KEY_NR else 0
    }

    /** A context as its user allocates it, before lu_context_init. */
    constructor ()
      ensures Valid() && state == Zeroed && !hasValues && version == 0 && !remembered
    {
      state := Zeroed;
      tags := {};
      hasValues := false;
      values := [];
      version := 0;
      remembered := false;
    }

    /**
     * keys_fill, one pass (the re-run when the version moved during the pass
     * needs a concurrent writer): the values and tags become those of
     * FillFrom, and on success the context records the table's version.
     */
    method KeysFill(reg: KeyRegistry, moduleGet: nat -> bool, init: nat -> InitResult) returns (rc: int)
      requires Valid() && reg.Valid() && hasValues
      modifies this
      ensures Valid() && hasValues && state == old(state) && remembered == old(remembered)
      ensures var r := FillFrom(reg.View(), 0, old(values), old(tags), moduleGet, init);
        rc == r.rc && values == r.values && tags == r.tags
      ensures version == if rc == 0 then reg.version else old(version)
    {
      ghost var view := reg.View();
      var i := 0;
      while i < CONTEXT_KEY_NR
        invariant 0 <= i <= CONTEXT_KEY_NR && |values| == CONTEXT_KEY_NR
        invariant FillFrom(view, i, values, tags, moduleGet, init) == FillFrom(view, 0, old(values), old(tags), moduleGet, init)
        invariant hasValues && state == old(state) && remembered == old(remembered) && version == old(version)
      {
        var key := reg.slots[i];
        assert view[i] == if key == null then None else Some(KeyView(key.tags, key.hasExit));
        var stop, err := FillSlot(key, i, moduleGet, init);
        if stop {
          assert view == reg.View();
          return err;
        }
        i := i + 1;
      }
      assert FillFrom(view, i, values, tags, moduleGet, init) == FillOutcome(0, values, tags);
      version := reg.version;
      assert view == reg.View();
      rc := 0;
    }

    /** The body of keys_fill's loop at slot `i`, whose key is `key` (null for an empty slot). */
    method FillSlot(key: ContextKey?, i: nat, moduleGet: nat -> bool, init: nat -> InitResult) returns (stop: bool, rc: int)
      requires Valid() && hasValues && i < CONTEXT_KEY_NR
      modifies `values, `tags
      ensures Valid()
      ensures var st := FillStep(if key == null then None else Some(KeyView(key.tags, key.hasExit)),
                                 i, old(values), old(tags), moduleGet, init);
        && stop == st.Stop?
        && (st.Stop? ==> rc == st.rc && values == old(values) && tags == old(tags))
        && (st.Next? ==> values == st.values && tags == st.tags)
    {
      stop, rc := false, 0;
      if values[i] == 0 && key != null && key.tags * tags != {} && LCT_QUIESCENT !in key.tags {
        if LCT_NOREF !in tags && !moduleGet(i) {
          return;
        }
        var v := init(i);
        if v.Failed? {
          return true, -(v.errno as int);
        }
        values := values[i := v.ptr];
        if key.hasExit {
          tags := tags + {LCT_HAS_EXIT};
        }
      }
    }

    /**
     * lu_context_init: the context is cleared and INITIALIZED with its tags,
     * its value array is allocated (allocOk says whether kcalloc succeeds) and
     * filled; when either fails the context is finalized again.
     */
    method Init(reg: KeyRegistry, tags: Tags, allocOk: bool, moduleGet: nat -> bool, init: nat -> InitResult)
      returns (rc: int)
      requires reg.Valid()
      modifies this
      ensures Valid()
      ensures var r := FillFrom(reg.View(), 0, NO_VALUES, tags, moduleGet, init);
        && (allocOk ==> rc == r.rc && this.tags == r.tags)
        && (!allocOk ==> rc == -ENOMEM && this.tags == tags)
        && (rc == 0 ==>
              && state == Initialized && hasValues && version == reg.version && values == r.values
              && remembered == (LCT_REMEMBER in tags))
        && (rc != 0 ==> state == Finalized && !hasValues && !remembered)
    {
      state := Initialized;
      this.tags := tags;
      hasValues := false;
      values := [];
      version := 0;
      remembered := LCT_REMEMBER in tags;
      ghost var view := reg.View();
      rc := KeysInit(reg, allocOk, moduleGet, init);
      assert reg.View() == view;
      if rc != 0 {
        Fini();
      }
      assert reg.View() == view;
    }

    /** keys_init: the value array is allocated (allocOk says whether kcalloc succeeds) and filled. */
    method KeysInit(reg: KeyRegistry, allocOk: bool, moduleGet: nat -> bool, init: nat -> InitResult) returns (rc: int)
      requires Valid() && reg.Valid()
      modifies this
      ensures Valid() && state == old(state) && remembered == old(remembered)
      ensures !allocOk ==> rc == -ENOMEM && hasValues == old(hasValues) && tags == old(tags) && version == old(version)
      ensures allocOk ==>
        var r := FillFrom(reg.View(), 0, NO_VALUES, old(tags), moduleGet, init);
        && rc == r.rc && hasValues && values == r.values && tags == r.tags
        && version == if rc == 0 then reg.version else old(version)
    {
      if !allocOk {
        return -ENOMEM;
      }
      hasValues := true;
      values := NO_VALUES;
      rc := KeysFill(reg, moduleGet, init);
    }

    /** lu_context_fini: from INITIALIZED or LEFT to FINALIZED, with the values freed and the context forgotten. */
    method Fini()
      requires Valid() && (state == Initialized || state == Left)
      modifies this
      ensures Valid() && state == Finalized && !hasValues && !remembered
      ensures tags == old(tags) && version == old(version)
    {
      state := Finalized;
      hasValues := false;
      values := [];
      remembered := false;
    }

    /** lu_context_enter: from INITIALIZED or LEFT to ENTERED. */
    method Enter()
      requires state == Initialized || state == Left
      modifies `state
      ensures state == Entered
    {
      state := Entered;
    }

    /**
     * lu_context_exit: from ENTERED to LEFT; when the context has
     * LCT_HAS_EXIT and values, the exit method of each filled slot's key
     * runs, and `calls` lists those slots in the order they run.
     */
    method Exit(reg: KeyRegistry) returns (calls: seq<nat>)
      requires Valid() && reg.Valid() && state == Entered
      requires hasValues ==> forall j :: 0 <= j < CONTEXT_KEY_NR && values[j] != 0 ==> reg.slots[j] != null
      modifies `state
      ensures state == Left
      ensures calls == if LCT_HAS_EXIT in tags && hasValues then ExitCalls(reg.View(), values, 0) else []
    {
      state := Left;
      calls := [];
      if LCT_HAS_EXIT in tags && hasValues {
        calls := ExitHooks(reg);
      }
    }

    /** The loop of lu_context_exit: the filled slots whose key has an exit method, in slot order. */
    method ExitHooks(reg: KeyRegistry) returns (calls: seq<nat>)
      requires Valid() && reg.Valid() && hasValues
      requires forall j :: 0 <= j < CONTEXT_KEY_NR && values[j] != 0 ==> reg.slots[j] != null
      ensures calls == ExitCalls(reg.View(), values, 0)
    {
      ghost var view := reg.View();
      calls := [];
      var i := 0;
      while i < CONTEXT_KEY_NR
        invariant 0 <= i <= CONTEXT_KEY_NR
        invariant forall j :: 0 <= j < CONTEXT_KEY_NR && values[j] != 0 ==> view[j].Some?
        invariant calls + ExitCalls(view, values, i) == ExitCalls(view, values, 0)
      {
        ghost var rest := ExitCalls(view, values, i + 1);
        if values[i] != 0 {
          var key := reg.slots[i];
          assert view[i] == Some(KeyView(key.tags, key.hasExit));
          if key.hasExit {
            assert ExitCalls(view, values, i) == [i] + rest;
            ConcatAssoc(calls, [i], rest);
            calls := calls + [i];
          } else {
            assert ExitCalls(view, values, i) == rest;
          }
        } else {
          assert ExitCalls(view, values, i) == rest;
        }
        i := i + 1;
      }
      assert ExitCalls(view, values, CONTEXT_KEY_NR) == [];
      assert view == reg.View();
    }

    /** lu_context_refill: nothing to do when the context is at the table's version, else one keys_fill. */
    method Refill(reg: KeyRegistry, moduleGet: nat -> bool, init: nat -> InitResult) returns (rc: int)
      requires Valid() && reg.Valid() && (version != reg.version ==> hasValues)
      modifies this
      ensures Valid() && state == old(state) && hasValues == old(hasValues)
      ensures old(version) == reg.version ==>
        rc == 0 && values == old(values) && tags == old(tags) && version == old(version)
      ensures old(version) != reg.version ==>
        var r := FillFrom(reg.View(), 0, old(values), old(tags), moduleGet, init);
        && rc == r.rc && values == r.values && tags == r.tags
        && version == if rc == 0 then reg.version else old(version)
    {
      if version == reg.version {
        return 0;
      }
      rc := KeysFill(reg, moduleGet, init);
    }
  }

  /** The constants of the object cache. */
  const LU_CACHE_PERCENT_MAX: nat := 50
  const LU_CACHE_PERCENT_DEFAULT: nat := 20
  const LU_CACHE_NR_MAX_ADJUST: nat := 512
  const LU_CACHE_NR_UNLIMITED: int := -1
  const LU_SITE_BITS_MIN: nat := 12
  const LU_SITE_BITS_MAX: nat := 24
  const LU_SITE_BITS_MAX_CL: nat := 19
  /** LUSTRE_VVP_NAME, the client's top device type. */
  const LUSTRE_VVP_NAME: string := "vvp"
  /** PAGE_SIZE of a 4 KiB-page machine. */
  const PAGE_SIZE: nat := 4096

  /** A C long. */
  type I64 = x: int | -0x8000_0000_0000_0000 <= x < 0x8000_0000_0000_0000

  /** The percentage lu_htable_order uses: an out-of-range setting is replaced by the default. */
  function EffectivePercent(p: U32): (r: U32)
    ensures 1 <= r <= LU_CACHE_PERCENT_MAX
    ensures 1 <= p <= LU_CACHE_PERCENT_MAX <==> r == p
    ensures r != p ==> r == LU_CACHE_PERCENT_DEFAULT
  {
    if p == 0 || p > LU_CACHE_PERCENT_MAX then LU_CACHE_PERCENT_DEFAULT else p
  }

  /** The cache size in kilobytes lu_htable_order sizes for, in unsigned long arithmetic. */
  function CacheSize(totalRamPages: U64, percent: U32): U64
  {
    (totalRamPages / 100 * percent * (PAGE_SIZE / 1024)) % U64_LIMIT
  }

  /** The first `bits` from `b` on with 2^bits at least `c`. */
  function OrderFrom(c: nat, b: nat): nat
    decreases if Pow2(b) < c then c - Pow2(b) else 0
  {
    if Pow2(b) < c then OrderFrom(c, b + 1) else b
  }

  /** OrderFrom is the least such `bits`. */
  lemma {:induction false} OrderFromLeast(c: nat, b: nat)
    ensures var r := OrderFrom(c, b);
      && b <= r && Pow2(r) >= c
      && forall k :: b <= k < r ==> Pow2(k) < c
    decreases if Pow2(b) < c then c - Pow2(b) else 0
  {
    if Pow2(b) < c {
      OrderFromLeast(c, b + 1);
    }
  }

  /** The largest order for a top device: 19 for the client, 24 otherwise. */
  function BitsMax(typeName: string): nat
  {
    if typeName == LUSTRE_VVP_NAME then LU_SITE_BITS_MAX_CL else LU_SITE_BITS_MAX
  }

  /**
   * lu_htable_order's result is in [12, 19] for the client and [12, 24]
   * otherwise, and inside those bounds it is the least `bits` of at least 1
   * with 2^bits at least the cache size.
   */
  lemma HtableOrderBounds(typeName: string, c: nat)
    ensures var r := Clamp(OrderFrom(c, 1), LU_SITE_BITS_MIN, BitsMax(typeName));
      && LU_SITE_BITS_MIN <= r <= BitsMax(typeName) <= LU_SITE_BITS_MAX
      && (typeName == LUSTRE_VVP_NAME ==> r <= LU_SITE_BITS_MAX_CL)
      && (LU_SITE_BITS_MIN < r < BitsMax(typeName) ==> Pow2(r) >= c && Pow2(r - 1) < c)
      && (r == LU_SITE_BITS_MIN ==> Pow2(LU_SITE_BITS_MIN) >= c)
      && (r == BitsMax(typeName) && Pow2(r) < c ==> OrderFrom(c, 1) > r)
  {
    OrderFromLeast(c, 1);
    var b := OrderFrom(c, 1);
    if b < LU_SITE_BITS_MIN {
      Pow2Monotone(b, LU_SITE_BITS_MIN);
    }
  }


  /** The module parameters lu_cache_percent and lu_cache_nr. */
  class CacheTunables {
    var cachePercent: U32
    var cacheNr: I64

    constructor ()
      ensures cachePercent == LU_CACHE_PERCENT_DEFAULT && cacheNr == LU_CACHE_NR_UNLIMITED
    {
      cachePercent := LU_CACHE_PERCENT_DEFAULT;
      cacheNr := LU_CACHE_NR_UNLIMITED;
    }

    /**
     * lu_htable_order: an out-of-range percentage is reset to the default;
     * the order is the least `bits` of at least 1 whose 2^bits covers the
     * cache size, clamped to [12, BitsMax].
     */
    method HtableOrder(typeName: string, totalRamPages: U64) returns (bits: nat)
      modifies `cachePercent
      ensures cachePercent == EffectivePercent(old(cachePercent))
      ensures bits == Clamp(OrderFrom(CacheSize(totalRamPages, cachePercent), 1), LU_SITE_BITS_MIN, BitsMax(typeName))
    {
      var bitsMax := LU_SITE_BITS_MAX;
      if typeName == LUSTRE_VVP_NAME {
        bitsMax := LU_SITE_BITS_MAX_CL;
      }
      if cachePercent == 0 || cachePercent > LU_CACHE_PERCENT_MAX {
        cachePercent := LU_CACHE_PERCENT_DEFAULT;
      }
      var cacheSize := CacheSize(totalRamPages, cachePercent);
      bits := 1;
      while Pow2(bits) < cacheSize
        invariant bits >= 1 && OrderFrom(cacheSize, bits) == OrderFrom(cacheSize, 1)
        decreases cacheSize - Pow2(bits)
      {
        bits := bits + 1;
      }
      bits := Clamp(bits, LU_SITE_BITS_MIN, bitsMax);
    }
  }

  /**
   * lu_object_limit: the count it asks lu_site_purge_objects to purge, or None when it
   * returns early (no limit, or the cache within it); the limit is read as
   * an unsigned 64-bit value.
   */
  function PurgeCount(cacheNr: I64, size: U64): Option<nat>
  {
    if cacheNr == LU_CACHE_NR_UNLIMITED then None
    else
      var nr := cacheNr % U64_LIMIT;
      if size <= nr then None
      else Some(if size - nr < LU_CACHE_NR_MAX_ADJUST then size - nr else LU_CACHE_NR_MAX_ADJUST)
  }

  /**
   * A non-negative limit is purged towards and never past: something is
   * purged exactly when the cache is over the limit, at most 512 objects,
   * and the limit itself is reached whenever the excess is at most 512.
   */
  lemma PurgeTowardsLimit(cacheNr: I64, size: U64)
    requires cacheNr >= 0
    ensures var r := PurgeCount(cacheNr, size);
      && (r.Some? <==> size > cacheNr)
      && (r.Some? ==> 1 <= r.value <= LU_CACHE_NR_MAX_ADJUST && size - r.value >= cacheNr)
      && (r.Some? && size - cacheNr <= LU_CACHE_NR_MAX_ADJUST ==> size - r.value == cacheNr)
  {
  }

  /** The unlimited setting never purges. */
  lemma UnlimitedNeverPurges(size: U64)
    ensures PurgeCount(LU_CACHE_NR_UNLIMITED, size) == None
  {
  }

  /** The first layer from `from` on whose device has the type `dtype`. */
  function FirstLayer(layers: seq<nat>, dtype: nat, from: nat): Option<nat>
    decreases |layers| - from
  {
    if from >= |layers| then None
    else if layers[from] == dtype then Some(from)
    else FirstLayer(layers, dtype, from + 1)
  }

  /** FirstLayer finds the first slice of the type, and none only when no slice has it. */
  lemma {:induction false} FirstLayerFirst(layers: seq<nat>, dtype: nat, from: nat)
    ensures var r := FirstLayer(layers, dtype, from);
      && (r.Some? ==> from <= r.value < |layers| && layers[r.value] == dtype
                      && forall j :: from <= j < r.value ==> layers[j] != dtype)
      && (r.None? ==> forall j :: from <= j < |layers| ==> layers[j] != dtype)
    decreases |layers| - from
  {
    if from < |layers| && layers[from] != dtype {
      FirstLayerFirst(layers, dtype, from + 1);
    }
  }

  /**
   * lu_object_locate on an object whose slices, top to bottom, belong to
   * devices of the types `layers`: the index of the first slice of type
   * `dtype`, or None (NULL).
   */
  method Locate(layers: seq<nat>, dtype: nat) returns (r: Option<nat>)
    ensures r == FirstLayer(layers, dtype, 0)
  {
    var i := 0;
    while i < |layers|
      invariant 0 <= i <= |layers| && FirstLayer(layers, dtype, i) == FirstLayer(layers, dtype, 0)
    {
      if layers[i] == dtype {
        return Some(i);
      }
      i := i + 1;
    }
    return None;
  }
}
