/**
 Nested state trackers: execution/state_tracker.go.

 `Tracker` is the value of one tracker, a stack lists a tracker and the trackers below it, innermost
 first, and `StateTracker` is the source's object.
 */
module StateTrackers {
  import opened Options
  import opened ByteStrings

  /** A state value; `None` is nil. */
  type Value = Option<Bytes>
  type Getter = Bytes -> Value

  datatype Tracker = Tracker(prefix: Bytes, trackDep: bool, deps: set<Bytes>, changes: map<Bytes, Value>) {
    function Depend(key: Bytes): Tracker {
      if trackDep then this.(deps := deps + {key}) else this
    }
    function SetState(key: Bytes, value: Value): Tracker {
      this.(changes := changes[prefix + key := value])
    }
    /** hasDependencyChanges: a key `child` read is changed here. */
    predicate Conflicts(child: Tracker) {
      exists key :: key in child.deps && prefix + key in changes
    }
  }

  /** execution/state_tracker.go:55-59 */
  function Spawned(prefix: Bytes): Tracker
  {
    Tracker(prefix, true, {}, map[])
  }

  /** A read goes down the stack, adding each prefix, to the first tracker that changed the key. */
  function Read(stack: seq<Tracker>, store: Getter, key: Bytes): Value
  {
    if stack == [] then store(key) else
    var k := stack[0].prefix + key;
    if k in stack[0].changes then stack[0].changes[k] else Read(stack[1..], store, k)
  }

  /** The dependencies that read leaves behind. */
  function AfterRead(stack: seq<Tracker>, key: Bytes): (r: seq<Tracker>)
    ensures |r| == |stack|
  {
    if stack == [] then [] else
    var k := stack[0].prefix + key;
    [stack[0].Depend(k)] + if k in stack[0].changes then stack[1..] else AfterRead(stack[1..], k)
  }

  /** All of `child`'s changes as the keys they have in a parent with prefix `prefix`. */
  function Lift(prefix: Bytes, changes: map<Bytes, Value>): map<Bytes, Value>
  {
    map key | key in Prefixed(prefix, changes.Keys) :: changes[key[|prefix|..]]
  }

  function Prefixed(prefix: Bytes, keys: set<Bytes>): (r: set<Bytes>)
    ensures forall key :: key in r ==> |prefix| <= |key| && key[|prefix|..] in keys && key == prefix + key[|prefix|..]
    ensures forall key :: key in keys ==> prefix + key in r
  {
    var r := set key | key in keys :: prefix + key;
    assert forall key :: key in keys ==> (prefix + key)[|prefix|..] == key;
    r
  }

  function Merged(parent: Tracker, child: Tracker): Tracker
  {
    parent.(changes := parent.changes + Lift(parent.prefix, child.changes))
  }

  // ----- Flattening -----

  /** The prefix a read through the whole stack puts in front of its key. */
  function FullPrefix(stack: seq<Tracker>): Bytes
  {
    if stack == [] then [] else FullPrefix(stack[1..]) + stack[0].prefix
  }

  /** All changes of a stack as one overlay over the fully prefixed keys; inner trackers win. */
  function Flat(stack: seq<Tracker>): map<Bytes, Value>
  {
    if stack == [] then map[] else Flat(stack[1..]) + Lift(FullPrefix(stack[1..]), stack[0].changes)
  }

  lemma LiftHas(prefix: Bytes, changes: map<Bytes, Value>, key: Bytes)
    ensures key in changes <==> prefix + key in Lift(prefix, changes)
    ensures key in changes ==> Lift(prefix, changes)[prefix + key] == changes[key]
  {
    assert (prefix + key)[|prefix|..] == key;
  }

  /** A read equals a lookup of the fully prefixed key in the stacked overlays. */
  lemma {:induction false} ReadIsFlat(stack: seq<Tracker>, store: Getter, key: Bytes)
    ensures var full := FullPrefix(stack) + key;
      Read(stack, store, key) == if full in Flat(stack) then Flat(stack)[full] else store(full)
  {
    if stack == [] {
      assert [] + key == key;
    } else {
      var k := stack[0].prefix + key;
      ReadIsFlat(stack[1..], store, k);
      ConcatAssociates(FullPrefix(stack[1..]), stack[0].prefix, key);
      LiftHas(FullPrefix(stack[1..]), stack[0].changes, k);
    }
  }

  /** After a merge the parent answers prefix + key as the child answered key, for every key. */
  lemma MergeAnswersAsChild(child: Tracker, parent: Tracker, below: seq<Tracker>, store: Getter, key: Bytes)
    ensures
      Read([Merged(parent, child)] + below, store, child.prefix + key) == Read([child, parent] + below, store, key)
  {
    var k := child.prefix + key;
    var stack := [child, parent] + below;
    assert stack[1..] == [parent] + below && stack[1..][1..] == below;
    assert ([Merged(parent, child)] + below)[1..] == below;
    LiftHas(parent.prefix, child.changes, k);
  }

  /** A key the child did not change is answered by the parent as before. */
  lemma MergeFrame(child: Tracker, parent: Tracker, below: seq<Tracker>, store: Getter, key: Bytes)
    requires key !in child.changes
    ensures Read([Merged(parent, child)] + below, store, key) == Read([parent] + below, store, key)
  {
    assert ([parent] + below)[1..] == below == ([Merged(parent, child)] + below)[1..];
    LiftHas(parent.prefix, child.changes, key);
  }

  /** What a tracker was written through SetState begins with its prefix. */
  predicate OwnKeys(t: Tracker)
  {
    forall key :: key in t.changes ==> t.prefix <= key
  }

  lemma SpawnedOwnKeys(prefix: Bytes)
    ensures OwnKeys(Spawned(prefix))
  {
  }

  lemma SetStateOwnKeys(t: Tracker, key: Bytes, value: Value)
    requires OwnKeys(t)
    ensures OwnKeys(t.SetState(key, value)) && t.SetState(key, value).prefix == t.prefix
  {
  }

  /** A read records dependencies and nothing else. */
  lemma {:induction false} ReadOwnKeys(stack: seq<Tracker>, key: Bytes, i: nat)
    requires i < |stack| && OwnKeys(stack[i])
    ensures var t := AfterRead(stack, key)[i];
      OwnKeys(t) && t.prefix == stack[i].prefix && t.changes == stack[i].changes
  {
    var k := stack[0].prefix + key;
    if i > 0 && k !in stack[0].changes {
      ReadOwnKeys(stack[1..], k, i - 1);
    }
  }

  /** Merging a child, whatever it wrote, leaves keys under the parent's prefix. */
  lemma MergedOwnKeys(parent: Tracker, child: Tracker)
    requires OwnKeys(parent)
    ensures OwnKeys(Merged(parent, child)) && Merged(parent, child).prefix == parent.prefix
  {
  }

  /** Children with distinct prefixes of one length write disjoint keys, so their merges commute. */
  lemma DistinctPrefixesDisjoint(parent: Tracker, c1: Tracker, c2: Tracker)
    requires OwnKeys(c1) && OwnKeys(c2) && |c1.prefix| == |c2.prefix| && c1.prefix != c2.prefix
    ensures Lift(parent.prefix, c1.changes).Keys !! Lift(parent.prefix, c2.changes).Keys
    ensures Merged(Merged(parent, c1), c2) == Merged(Merged(parent, c2), c1)
  {
    assert c1.changes.Keys !! c2.changes.Keys;
    LiftDisjoint(parent.prefix, c1.changes, c2.changes);
    UnionsCommute(parent.changes, Lift(parent.prefix, c1.changes), Lift(parent.prefix, c2.changes));
  }

  lemma LiftDisjoint(prefix: Bytes, m1: map<Bytes, Value>, m2: map<Bytes, Value>)
    requires m1.Keys !! m2.Keys
    ensures Lift(prefix, m1).Keys !! Lift(prefix, m2).Keys
  {
  }

  lemma UnionsCommute(m: map<Bytes, Value>, l1: map<Bytes, Value>, l2: map<Bytes, Value>)
    requires l1.Keys !! l2.Keys
    ensures m + l1 + l2 == m + l2 + l1
  {
  }

  // ----- The object -----

  class StateTracker {
    const keyPrefix: Bytes
    const base: StateTracker?  // the tracker it was spawned from, if any
    const store: Getter        // what the outermost tracker reads from
    const trackDep: bool
    var dependencies: set<Bytes>
    var changes: map<Bytes, Value>
    ghost const chain: seq<StateTracker>  // this tracker and those below it

    ghost predicate Valid()
      decreases |chain|
    {
      && chain != [] && chain[0] == this
      && (base == null ==> |chain| == 1)
      && (base != null ==> chain[1..] == base.chain && this !in base.chain && base.store == store && base.Valid())
    }

    function View(): Tracker
      reads this
    {
      Tracker(keyPrefix, trackDep, dependencies, changes)
    }

    ghost function Stack(): (r: seq<Tracker>)
      requires Valid()
      reads chain
      ensures |r| == |chain|
      decreases |chain|
    {
      [View()] + if base == null then [] else base.Stack()
    }

    /** newStateTracker: execution/state_tracker.go:32-40 */
    constructor (store: Getter, keyPrefix: Bytes)
      ensures Valid() && Stack() == [Tracker(keyPrefix, false, {}, map[])] && this.store == store
      ensures fresh(this)
    {
      this.store, this.keyPrefix, base, trackDep := store, keyPrefix, null, false;
      dependencies, changes := {}, map[];
      chain := [this];
    }

    constructor On(parent: StateTracker, keyPrefix: Bytes)
      requires parent.Valid()
      ensures Valid() && base == parent && store == parent.store
      ensures View() == Spawned(keyPrefix) && chain == [this] + parent.chain
      ensures fresh(this)
    {
      store, base, trackDep := parent.store, parent, true;
      this.keyPrefix := keyPrefix;
      dependencies, changes := {}, map[];
      chain := [this] + parent.chain;
    }

    /** execution/state_tracker.go:55-59 */
    method Spawn(prefix: Bytes) returns (child: StateTracker)
      requires Valid()
      ensures child.Valid() && fresh(child) && child.base == this && child.chain == [child] + chain
      ensures child.View() == Spawned(prefix) && child.Stack() == [Spawned(prefix)] + Stack()
      ensures child.store == store
    {
      child := new StateTracker.On(this, prefix);
    }

    /** execution/state_tracker.go:102-118 */
    method GetState(key: Bytes) returns (value: Value)
      requires Valid()
      modifies chain`dependencies
      ensures value == Read(old(Stack()), store, key)
      ensures Stack() == AfterRead(old(Stack()), key)
      decreases |chain|
    {
      var k := keyPrefix + key;
      if trackDep {
        dependencies := dependencies + {k};
      }
      assert old(Stack())[0] == old(View());
      if k in changes {
        value := changes[k];
      } else if base != null {
        assert old(Stack())[1..] == old(base.Stack());
        value := base.GetState(k);
        assert Stack() == [View()] + base.Stack();
      } else {
        value := store(k);
      }
    }

    /** execution/state_tracker.go:120-124 */
    method SetState(key: Bytes, value: Value)
      modifies this`changes
      ensures View() == old(View()).SetState(key, value)
    {
      changes := changes[keyPrefix + key := value];
    }

    /** execution/state_tracker.go:61-77 */
    method HasDependencyChanges(child: StateTracker) returns (changed: bool)
      ensures changed == View().Conflicts(child.View())
      ensures changed <==> exists key :: key in child.dependencies && keyPrefix + key in changes
    {
      var rest := child.dependencies;
      while rest != {}
        invariant rest <= child.dependencies
        invariant forall key :: key in child.dependencies && key !in rest ==> keyPrefix + key !in changes
      {
        var key :| key in rest;
        if keyPrefix + key in changes {
          return true;
        }
        rest := rest - {key};
      }
      return false;
    }

    /** execution/state_tracker.go:79-89: in any order of the child's changes. */
    method Merge(child: StateTracker)
      requires child != this
      modifies this`changes
      ensures View() == Merged(old(View()), child.View())
    {
      ghost var before := changes;
      var rest := child.changes.Keys;
      NothingMerged(before, keyPrefix, child.changes);
      while rest != {}
        invariant rest <= child.changes.Keys
        invariant changes == MergedExcept(before, keyPrefix, child.changes, rest)
      {
        var key :| key in rest;
        MergeOne(before, keyPrefix, child.changes, rest, key);
        SetState(key, child.changes[key]);
        rest := rest - {key};
      }
      AllMerged(before, keyPrefix, child.changes);
    }

    /** execution/state_tracker.go:91-100: every change once, in some order. */
    method GetStateChanges() returns (list: seq<(Bytes, Value)>)
      ensures forall key, value :: (key, value) in list <==> key in changes && changes[key] == value
      ensures |list| == |changes|
    {
      list := [];
      var rest := changes.Keys;
      while rest != {}
        invariant rest <= changes.Keys
        invariant |list| + |rest| == |changes|
        invariant forall key, value :: (key, value) in list <==> key in changes && key !in rest && changes[key] == value
      {
        var key :| key in rest;
        list := list + [(key, changes[key])];
        rest := rest - {key};
      }
    }
  }

  /** A merge that has still to visit the keys in `rest`. */
  ghost function MergedExcept(m: map<Bytes, Value>, prefix: Bytes, child: map<Bytes, Value>,
                              rest: set<Bytes>): map<Bytes, Value>
  {
    m + Lift(prefix, child - rest)
  }

  lemma NothingMerged(m: map<Bytes, Value>, prefix: Bytes, child: map<Bytes, Value>)
    ensures MergedExcept(m, prefix, child, child.Keys) == m
  {
    assert child - child.Keys == map[];
  }

  lemma AllMerged(m: map<Bytes, Value>, prefix: Bytes, child: map<Bytes, Value>)
    ensures MergedExcept(m, prefix, child, {}) == m + Lift(prefix, child)
  {
    assert child - {} == child;
  }

  lemma MergeOne(m: map<Bytes, Value>, prefix: Bytes, child: map<Bytes, Value>, rest: set<Bytes>, key: Bytes)
    requires key in rest && key in child
    ensures
      MergedExcept(m, prefix, child, rest)[prefix + key := child[key]] == MergedExcept(m, prefix, child, rest - {key})
  {
    LiftAdds(prefix, child - rest, key, child[key]);
    RestoreKey(child, rest, key);
    UnionUpdate(m, Lift(prefix, child - rest), prefix + key, child[key]);
  }

  lemma RestoreKey(m: map<Bytes, Value>, rest: set<Bytes>, key: Bytes)
    requires key in rest && key in m
    ensures (m - rest)[key := m[key]] == m - (rest - {key})
  {
  }

  lemma UnionUpdate(m: map<Bytes, Value>, l: map<Bytes, Value>, key: Bytes, value: Value)
    ensures (m + l)[key := value] == m + l[key := value]
  {
  }

  lemma LiftAdds(prefix: Bytes, changes: map<Bytes, Value>, key: Bytes, value: Value)
    ensures Lift(prefix, changes[key := value]) == Lift(prefix, changes)[prefix + key := value]
  {
    var l, r := Lift(prefix, changes[key := value]), Lift(prefix, changes)[prefix + key := value];
    forall k
      ensures k in l <==> k in r
      ensures k in l ==> l[k] == r[k]
    {
      if |prefix| <= |k| && prefix + k[|prefix|..] == k {
        LiftHas(prefix, changes, k[|prefix|..]);
        LiftHas(prefix, changes[key := value], k[|prefix|..]);
        if k == prefix + key {
          PrefixCancels(prefix, k[|prefix|..], key);
        }
      }
    }
  }
}
