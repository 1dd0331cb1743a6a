/**
 The instance convergence record of the wing API group and the Go heap it
 lives in.

 Go's `*InstanceSpec`, `*InstanceStatus` and `*InstanceStatusManifest` fields
 are pointers, and `[]Instance` is a slice over a backing array. To state what
 a deep copy promises about aliasing, every heap-allocated object lives in a
 `Heap`: one map per Go type from a reference to the object, and a single
 allocation counter `next`. A pointer field is an `Option<Ref>`; `None` is nil.

 `Resolve*` reads an object with every pointer followed, giving a pointer-free
 value: two objects are deep-equal when they resolve to the same value.
 `*Footprint` is the set of references reached from an object; two objects
 share nothing when their footprints are disjoint.
 */
module WingTypes {
  import opened Wrappers

  type Ref = nat

  /** Kubernetes type and object metadata: foreign values that copy to an equal value. */
  datatype TypeMeta = TypeMeta(kind: string, apiVersion: string)
  datatype ObjectMeta = ObjectMeta(name: string, namespace: string, resourceVersion: string)

  datatype InstanceSpec = InstanceSpec(convergeHash: string, dryRunPath: string, dryRunHash: string)

  /** `state` is a Go string-typed field: any string, normally one of the three wire strings. */
  datatype InstanceStatusManifest = InstanceStatusManifest(state: string, hash: string)

  datatype InstanceStatus = InstanceStatus(converge: Option<Ref>, dryRun: Option<Ref>)

  datatype Instance = Instance(
    typeMeta: TypeMeta,
    objectMeta: ObjectMeta,
    instanceID: string,
    instancePool: string,
    spec: Option<Ref>,
    status: Option<Ref>)

  /** `items` is the slice: nil, or a reference to its backing array. */
  datatype InstanceList = InstanceList(typeMeta: TypeMeta, objectMeta: ObjectMeta, items: Option<Ref>)

  datatype Heap = Heap(
    instances: map<Ref, Instance>,
    lists: map<Ref, InstanceList>,
    specs: map<Ref, InstanceSpec>,
    statuses: map<Ref, InstanceStatus>,
    manifests: map<Ref, InstanceStatusManifest>,
    arrays: map<Ref, seq<Instance>>,
    next: Ref)

  /** The zero values Go's `new(T)` and `make` produce. */
  const ZeroTypeMeta := TypeMeta("", "")
  const ZeroObjectMeta := ObjectMeta("", "", "")
  const ZeroInstance := Instance(ZeroTypeMeta, ZeroObjectMeta, "", "", None, None)
  const ZeroInstanceList := InstanceList(ZeroTypeMeta, ZeroObjectMeta, None)
  const ZeroInstanceSpec := InstanceSpec("", "", "")
  const ZeroInstanceStatus := InstanceStatus(None, None)
  const ZeroInstanceStatusManifest := InstanceStatusManifest("", "")

  /** A heap together with the value an operation produced in it. */
  datatype Copied<T> = Copied(heap: Heap, copy: T)

  // ---------------------------------------------------------------------------
  // Well-formedness

  predicate PtrIn<V>(p: Option<Ref>, m: map<Ref, V>) {
    p.None? || p.value in m
  }

  predicate StatusOk(h: Heap, st: InstanceStatus) {
    PtrIn(st.converge, h.manifests) && PtrIn(st.dryRun, h.manifests)
  }

  predicate InstanceOk(h: Heap, x: Instance) {
    && PtrIn(x.spec, h.specs)
    && PtrIn(x.status, h.statuses)
    && (x.status.Some? ==> StatusOk(h, h.statuses[x.status.value]))
  }

  predicate ItemsOk(h: Heap, xs: seq<Instance>) {
    forall i :: 0 <= i < |xs| ==> InstanceOk(h, xs[i])
  }

  predicate ListOk(h: Heap, l: InstanceList) {
    PtrIn(l.items, h.arrays) && (l.items.Some? ==> ItemsOk(h, h.arrays[l.items.value]))
  }

  predicate Below(keys: set<Ref>, n: Ref) {
    forall r :: r in keys ==> r < n
  }

  /** Every object was allocated below `next`. */
  predicate Valid(h: Heap) {
    && Below(h.instances.Keys, h.next)
    && Below(h.lists.Keys, h.next)
    && Below(h.specs.Keys, h.next)
    && Below(h.statuses.Keys, h.next)
    && Below(h.manifests.Keys, h.next)
    && Below(h.arrays.Keys, h.next)
  }

  // ---------------------------------------------------------------------------
  // Resolved (pointer-free) values

  datatype StatusValue = StatusValue(converge: Option<InstanceStatusManifest>, dryRun: Option<InstanceStatusManifest>)

  datatype InstanceValue = InstanceValue(
    typeMeta: TypeMeta,
    objectMeta: ObjectMeta,
    instanceID: string,
    instancePool: string,
    spec: Option<InstanceSpec>,
    status: Option<StatusValue>)

  datatype InstanceListValue = InstanceListValue(typeMeta: TypeMeta, objectMeta: ObjectMeta, items: Option<seq<InstanceValue>>)

  function Deref<V>(p: Option<Ref>, m: map<Ref, V>): Option<V>
    requires PtrIn(p, m)
  {
    if p.None? then None else Some(m[p.value])
  }

  function ResolveStatus(h: Heap, st: InstanceStatus): StatusValue
    requires StatusOk(h, st)
  {
    StatusValue(Deref(st.converge, h.manifests), Deref(st.dryRun, h.manifests))
  }

  function ResolveInstance(h: Heap, x: Instance): InstanceValue
    requires InstanceOk(h, x)
  {
    InstanceValue(
      x.typeMeta, x.objectMeta, x.instanceID, x.instancePool,
      Deref(x.spec, h.specs),
      if x.status.None? then None else Some(ResolveStatus(h, h.statuses[x.status.value])))
  }

  function ResolveItems(h: Heap, xs: seq<Instance>): (vs: seq<InstanceValue>)
    requires ItemsOk(h, xs)
    ensures |vs| == |xs|
    ensures forall i :: 0 <= i < |xs| ==> vs[i] == ResolveInstance(h, xs[i])
  {
    seq(|xs|, i requires 0 <= i < |xs| && ItemsOk(h, xs) => ResolveInstance(h, xs[i]))
  }

  function ResolveList(h: Heap, l: InstanceList): InstanceListValue
    requires ListOk(h, l)
  {
    InstanceListValue(
      l.typeMeta, l.objectMeta,
      if l.items.None? then None else Some(ResolveItems(h, h.arrays[l.items.value])))
  }

  // ---------------------------------------------------------------------------
  // Footprints

  function OptRefs(p: Option<Ref>): set<Ref> {
    if p.None? then {} else {p.value}
  }

  function StatusFootprint(st: InstanceStatus): set<Ref> {
    OptRefs(st.converge) + OptRefs(st.dryRun)
  }

  function InstanceFootprint(h: Heap, x: Instance): set<Ref>
    requires InstanceOk(h, x)
  {
    OptRefs(x.spec) + OptRefs(x.status)
    + (if x.status.None? then {} else StatusFootprint(h.statuses[x.status.value]))
  }

  function ItemsFootprint(h: Heap, xs: seq<Instance>): set<Ref>
    requires ItemsOk(h, xs)
  {
    if xs == [] then {} else ItemsFootprint(h, xs[..|xs| - 1]) + InstanceFootprint(h, xs[|xs| - 1])
  }

  function ListFootprint(h: Heap, l: InstanceList): set<Ref>
    requires ListOk(h, l)
  {
    OptRefs(l.items) + (if l.items.None? then {} else ItemsFootprint(h, h.arrays[l.items.value]))
  }

  /** Every reference in `s` lies in `[lo, hi)`. */
  predicate InRange(s: set<Ref>, lo: Ref, hi: Ref) {
    forall r :: r in s ==> lo <= r < hi
  }

  // ---------------------------------------------------------------------------
  // Frames

  /** Whatever object `h1` holds at `r`, `h2` holds the same object there. */
  predicate AgreeAt(h1: Heap, h2: Heap, r: Ref) {
    && (r in h1.instances ==> r in h2.instances && h2.instances[r] == h1.instances[r])
    && (r in h1.lists ==> r in h2.lists && h2.lists[r] == h1.lists[r])
    && (r in h1.specs ==> r in h2.specs && h2.specs[r] == h1.specs[r])
    && (r in h1.statuses ==> r in h2.statuses && h2.statuses[r] == h1.statuses[r])
    && (r in h1.manifests ==> r in h2.manifests && h2.manifests[r] == h1.manifests[r])
    && (r in h1.arrays ==> r in h2.arrays && h2.arrays[r] == h1.arrays[r])
  }

  /** `h1` and `h2` hold exactly the same objects at `r`. */
  predicate SameAt(h1: Heap, h2: Heap, r: Ref) {
    AgreeAt(h1, h2, r) && AgreeAt(h2, h1, r)
  }

  /** `h2` only adds objects to `h1`, at references `h1` had not handed out. */
  ghost predicate Extends(h1: Heap, h2: Heap) {
    && h1.next <= h2.next
    && forall r: Ref :: r < h1.next ==> SameAt(h1, h2, r)
  }

  /** `h2` may differ from `h1` at `dst` and add objects above `h1.next`; nothing else changes. */
  ghost predicate FramedExcept(h1: Heap, h2: Heap, dst: Ref) {
    && h1.next <= h2.next
    && forall r: Ref :: r < h1.next && r != dst ==> SameAt(h1, h2, r)
  }

  lemma ExtendsFramed(h1: Heap, h2: Heap, dst: Ref)
    requires Extends(h1, h2)
    ensures FramedExcept(h1, h2, dst)
  {
  }

  lemma FramedTransitive(h1: Heap, h2: Heap, h3: Heap, dst: Ref)
    requires FramedExcept(h1, h2, dst) && FramedExcept(h2, h3, dst)
    ensures FramedExcept(h1, h3, dst)
  {
    forall r: Ref | r < h1.next && r != dst
      ensures SameAt(h1, h3, r)
    {
      assert SameAt(h1, h2, r) && SameAt(h2, h3, r);
    }
  }

  /** Changing only an object allocated after `h1` keeps `h2` an extension of `h1`. */
  lemma FramedAboveExtends(h1: Heap, h2: Heap, dst: Ref)
    requires FramedExcept(h1, h2, dst) && h1.next <= dst
    ensures Extends(h1, h2)
  {
  }

  lemma ExtendsTransitive(h1: Heap, h2: Heap, h3: Heap)
    requires Extends(h1, h2) && Extends(h2, h3)
    ensures Extends(h1, h3)
  {
    forall r: Ref | r < h1.next
      ensures SameAt(h1, h3, r)
    {
      assert SameAt(h1, h2, r) && SameAt(h2, h3, r);
    }
  }

  /** Resolving an instance reads only its footprint. */
  lemma InstanceFrame(h1: Heap, h2: Heap, x: Instance)
    requires InstanceOk(h1, x)
    requires forall r :: r in InstanceFootprint(h1, x) ==> AgreeAt(h1, h2, r)
    ensures InstanceOk(h2, x)
    ensures ResolveInstance(h2, x) == ResolveInstance(h1, x)
    ensures InstanceFootprint(h2, x) == InstanceFootprint(h1, x)
  {
    if x.spec.Some? {
      assert AgreeAt(h1, h2, x.spec.value);
    }
    if x.status.Some? {
      var s := x.status.value;
      assert AgreeAt(h1, h2, s);
      var st := h1.statuses[s];
      if st.converge.Some? {
        assert AgreeAt(h1, h2, st.converge.value);
      }
      if st.dryRun.Some? {
        assert AgreeAt(h1, h2, st.dryRun.value);
      }
    }
  }

  lemma {:induction false} ItemsFrame(h1: Heap, h2: Heap, xs: seq<Instance>)
    requires ItemsOk(h1, xs)
    requires forall r :: r in ItemsFootprint(h1, xs) ==> AgreeAt(h1, h2, r)
    ensures ItemsOk(h2, xs)
    ensures ResolveItems(h2, xs) == ResolveItems(h1, xs)
    ensures ItemsFootprint(h2, xs) == ItemsFootprint(h1, xs)
    decreases |xs|
  {
    if xs != [] {
      var front := xs[..|xs| - 1];
      assert ItemsOk(h1, front);
      ItemsFrame(h1, h2, front);
      InstanceFrame(h1, h2, xs[|xs| - 1]);
      forall i | 0 <= i < |xs|
        ensures InstanceOk(h2, xs[i]) && ResolveInstance(h2, xs[i]) == ResolveInstance(h1, xs[i])
      {
        if i < |xs| - 1 {
          assert xs[i] == front[i];
        }
      }
    }
  }

  /** A valid heap's objects reach only references below `next`. */
  lemma InstanceFootprintBelow(h: Heap, x: Instance)
    requires Valid(h) && InstanceOk(h, x)
    ensures Below(InstanceFootprint(h, x), h.next)
  {
  }

  lemma {:induction false} ItemsFootprintBelow(h: Heap, xs: seq<Instance>)
    requires Valid(h) && ItemsOk(h, xs)
    ensures Below(ItemsFootprint(h, xs), h.next)
    decreases |xs|
  {
    if xs != [] {
      ItemsFootprintBelow(h, xs[..|xs| - 1]);
      InstanceFootprintBelow(h, xs[|xs| - 1]);
    }
  }

  /** Allocation leaves every existing status resolving as it did. */
  lemma StatusStable(h1: Heap, h2: Heap, st: InstanceStatus)
    requires Valid(h1) && Extends(h1, h2) && StatusOk(h1, st)
    ensures StatusOk(h2, st)
    ensures ResolveStatus(h2, st) == ResolveStatus(h1, st)
  {
    if st.converge.Some? {
      assert SameAt(h1, h2, st.converge.value);
    }
    if st.dryRun.Some? {
      assert SameAt(h1, h2, st.dryRun.value);
    }
  }

  /** Allocation leaves every existing instance resolving as it did. */
  lemma InstanceStable(h1: Heap, h2: Heap, x: Instance)
    requires Valid(h1) && Extends(h1, h2) && InstanceOk(h1, x)
    ensures InstanceOk(h2, x)
    ensures ResolveInstance(h2, x) == ResolveInstance(h1, x)
    ensures InstanceFootprint(h2, x) == InstanceFootprint(h1, x)
  {
    InstanceFootprintBelow(h1, x);
    forall r | r in InstanceFootprint(h1, x)
      ensures AgreeAt(h1, h2, r)
    {
      assert SameAt(h1, h2, r);
    }
    InstanceFrame(h1, h2, x);
  }

  lemma ItemsStable(h1: Heap, h2: Heap, xs: seq<Instance>)
    requires Valid(h1) && Extends(h1, h2) && ItemsOk(h1, xs)
    ensures ItemsOk(h2, xs)
    ensures ResolveItems(h2, xs) == ResolveItems(h1, xs)
    ensures ItemsFootprint(h2, xs) == ItemsFootprint(h1, xs)
  {
    ItemsFootprintBelow(h1, xs);
    forall r | r in ItemsFootprint(h1, xs)
      ensures AgreeAt(h1, h2, r)
    {
      assert SameAt(h1, h2, r);
    }
    ItemsFrame(h1, h2, xs);
  }

  lemma ListStable(h1: Heap, h2: Heap, l: InstanceList)
    requires Valid(h1) && Extends(h1, h2) && ListOk(h1, l)
    ensures ListOk(h2, l)
    ensures ResolveList(h2, l) == ResolveList(h1, l)
    ensures ListFootprint(h2, l) == ListFootprint(h1, l)
  {
    if l.items.Some? {
      assert SameAt(h1, h2, l.items.value);
      ItemsStable(h1, h2, h1.arrays[l.items.value]);
    }
  }

  lemma ListFrame(h1: Heap, h2: Heap, l: InstanceList)
    requires ListOk(h1, l)
    requires forall r :: r in ListFootprint(h1, l) ==> AgreeAt(h1, h2, r)
    ensures ListOk(h2, l)
    ensures ResolveList(h2, l) == ResolveList(h1, l)
    ensures ListFootprint(h2, l) == ListFootprint(h1, l)
  {
    if l.items.Some? {
      assert AgreeAt(h1, h2, l.items.value);
      ItemsFrame(h1, h2, h1.arrays[l.items.value]);
    }
  }

  lemma ListFootprintBelow(h: Heap, l: InstanceList)
    requires Valid(h) && ListOk(h, l)
    ensures Below(ListFootprint(h, l), h.next)
  {
    if l.items.Some? {
      ItemsFootprintBelow(h, h.arrays[l.items.value]);
    }
  }
}
