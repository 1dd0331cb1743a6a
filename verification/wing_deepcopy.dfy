/**
 The generated deep-copy functions of the wing API group
 (pkg/apis/wing/v1alpha1/zz_generated.deepcopy.go).

 `XDeepCopyInto(h, src, dst)` is `in.DeepCopyInto(out)` with `in` at `src` and
 `out` at `dst`: it returns the heap after `*out` has been overwritten with a
 copy of `*in` whose pointers all lead to newly allocated objects.
 `XDeepCopy(h, src)` is `in.DeepCopy()`: nil gives nil, otherwise a new object
 is allocated and filled by `DeepCopyInto`.

 "Freshly allocated" is stated as: every reference reached from the copy lies
 in `[h.next, h'.next)`, where no object of the original heap can be.
 */
module WingDeepCopy {
  import opened Wrappers
  import opened WingTypes

  // ---------------------------------------------------------------------------
  // Allocation: Go's `new(T)` and `make([]T, n)`

  function NewManifest(h: Heap, v: InstanceStatusManifest): (r: Copied<Ref>)
    requires Valid(h)
    ensures Valid(r.heap) && Extends(h, r.heap)
    ensures r.copy == h.next && r.heap.next == h.next + 1
    ensures r.heap.manifests == h.manifests[r.copy := v]
    ensures r.heap.(manifests := h.manifests, next := h.next) == h
  {
    Copied(h.(manifests := h.manifests[h.next := v], next := h.next + 1), h.next)
  }

  function NewSpec(h: Heap, v: InstanceSpec): (r: Copied<Ref>)
    requires Valid(h)
    ensures Valid(r.heap) && Extends(h, r.heap)
    ensures r.copy == h.next && r.heap.next == h.next + 1
    ensures r.heap.specs == h.specs[r.copy := v]
    ensures r.heap.(specs := h.specs, next := h.next) == h
  {
    Copied(h.(specs := h.specs[h.next := v], next := h.next + 1), h.next)
  }

  function NewStatus(h: Heap, v: InstanceStatus): (r: Copied<Ref>)
    requires Valid(h)
    ensures Valid(r.heap) && Extends(h, r.heap)
    ensures r.copy == h.next && r.heap.next == h.next + 1
    ensures r.heap.statuses == h.statuses[r.copy := v]
    ensures r.heap.(statuses := h.statuses, next := h.next) == h
  {
    Copied(h.(statuses := h.statuses[h.next := v], next := h.next + 1), h.next)
  }

  function NewInstance(h: Heap, v: Instance): (r: Copied<Ref>)
    requires Valid(h)
    ensures Valid(r.heap) && Extends(h, r.heap)
    ensures r.copy == h.next && r.heap.next == h.next + 1
    ensures r.heap.instances == h.instances[r.copy := v]
    ensures r.heap.(instances := h.instances, next := h.next) == h
  {
    Copied(h.(instances := h.instances[h.next := v], next := h.next + 1), h.next)
  }

  function NewList(h: Heap, v: InstanceList): (r: Copied<Ref>)
    requires Valid(h)
    ensures Valid(r.heap) && Extends(h, r.heap)
    ensures r.copy == h.next && r.heap.next == h.next + 1
    ensures r.heap.lists == h.lists[r.copy := v]
    ensures r.heap.(lists := h.lists, next := h.next) == h
  {
    Copied(h.(lists := h.lists[h.next := v], next := h.next + 1), h.next)
  }

  function NewArray(h: Heap, v: seq<Instance>): (r: Copied<Ref>)
    requires Valid(h)
    ensures Valid(r.heap) && Extends(h, r.heap)
    ensures r.copy == h.next && r.heap.next == h.next + 1
    ensures r.heap.arrays == h.arrays[r.copy := v]
    ensures r.heap.(arrays := h.arrays, next := h.next) == h
  {
    Copied(h.(arrays := h.arrays[h.next := v], next := h.next + 1), h.next)
  }

  // ---------------------------------------------------------------------------
  // Stores: Go's `*out = v` over an existing object

  function StoreStatus(h: Heap, dst: Ref, v: InstanceStatus): (h': Heap)
    requires Valid(h) && dst in h.statuses
    ensures Valid(h') && FramedExcept(h, h', dst)
    ensures h'.statuses == h.statuses[dst := v]
    ensures h'.(statuses := h.statuses) == h
  {
    h.(statuses := h.statuses[dst := v])
  }

  function StoreInstance(h: Heap, dst: Ref, v: Instance): (h': Heap)
    requires Valid(h) && dst in h.instances
    ensures Valid(h') && FramedExcept(h, h', dst)
    ensures h'.instances == h.instances[dst := v]
    ensures h'.(instances := h.instances) == h
  {
    h.(instances := h.instances[dst := v])
  }

  function StoreList(h: Heap, dst: Ref, v: InstanceList): (h': Heap)
    requires Valid(h) && dst in h.lists
    ensures Valid(h') && FramedExcept(h, h', dst)
    ensures h'.lists == h.lists[dst := v]
    ensures h'.(lists := h.lists) == h
  {
    h.(lists := h.lists[dst := v])
  }

  /** `(*out)[i] = v` for the backing array at `dst`. */
  function StoreSlot(h: Heap, dst: Ref, i: nat, v: Instance): (h': Heap)
    requires Valid(h) && dst in h.arrays && i < |h.arrays[dst]|
    ensures Valid(h') && FramedExcept(h, h', dst)
    ensures h'.arrays == h.arrays[dst := h.arrays[dst][i := v]]
    ensures h'.(arrays := h.arrays) == h
  {
    h.(arrays := h.arrays[dst := h.arrays[dst][i := v]])
  }

  // ---------------------------------------------------------------------------
  // InstanceStatusManifest

  /** `*out = *in`: a plain value copy. */
  method StatusManifestDeepCopyInto(h: Heap, src: Ref, dst: Ref) returns (h': Heap)
    requires Valid(h) && src in h.manifests && dst in h.manifests
    ensures Valid(h')
    ensures h'.manifests == h.manifests[dst := h.manifests[src]]
    ensures h'.(manifests := h.manifests) == h
  {
    h' := h.(manifests := h.manifests[dst := h.manifests[src]]);
  }

  method StatusManifestDeepCopy(h: Heap, src: Option<Ref>) returns (h': Heap, out: Option<Ref>)
    requires Valid(h) && PtrIn(src, h.manifests)
    ensures out.None? <==> src.None?
    ensures src.None? ==> h' == h
    ensures Valid(h') && Extends(h, h')
    ensures PtrIn(out, h'.manifests) && Deref(out, h'.manifests) == Deref(src, h.manifests)
    ensures InRange(OptRefs(out), h.next, h'.next)
  {
    if src.None? {
      return h, None;
    }
    var a := NewManifest(h, ZeroInstanceStatusManifest);
    h' := StatusManifestDeepCopyInto(a.heap, src.value, a.copy);
    out := Some(a.copy);
  }

  // ---------------------------------------------------------------------------
  // InstanceSpec

  /** `*out = *in`: a plain value copy. */
  method SpecDeepCopyInto(h: Heap, src: Ref, dst: Ref) returns (h': Heap)
    requires Valid(h) && src in h.specs && dst in h.specs
    ensures Valid(h')
    ensures h'.specs == h.specs[dst := h.specs[src]]
    ensures h'.(specs := h.specs) == h
  {
    h' := h.(specs := h.specs[dst := h.specs[src]]);
  }

  method SpecDeepCopy(h: Heap, src: Option<Ref>) returns (h': Heap, out: Option<Ref>)
    requires Valid(h) && PtrIn(src, h.specs)
    ensures out.None? <==> src.None?
    ensures src.None? ==> h' == h
    ensures Valid(h') && Extends(h, h')
    ensures PtrIn(out, h'.specs) && Deref(out, h'.specs) == Deref(src, h.specs)
    ensures InRange(OptRefs(out), h.next, h'.next)
  {
    if src.None? {
      return h, None;
    }
    var a := NewSpec(h, ZeroInstanceSpec);
    h' := SpecDeepCopyInto(a.heap, src.value, a.copy);
    out := Some(a.copy);
  }

  // ---------------------------------------------------------------------------
  // InstanceStatus

  /** The body of `InstanceStatus.DeepCopyInto` applied to the value `*in`; `st'` is what ends up in `*out`. */
  method CopyStatusFields(h: Heap, st: InstanceStatus) returns (h': Heap, st': InstanceStatus)
    requires Valid(h) && StatusOk(h, st)
    ensures Valid(h') && Extends(h, h')
    ensures StatusOk(h', st')
    ensures ResolveStatus(h', st') == ResolveStatus(h, st)
    ensures st'.converge.None? <==> st.converge.None?
    ensures st'.dryRun.None? <==> st.dryRun.None?
    ensures InRange(StatusFootprint(st'), h.next, h'.next)
  {
    // `*out = *in`; then each non-nil pointer gets `new(InstanceStatusManifest)` holding `**in`.
    st' := st;
    var h1, converge := StatusManifestDeepCopy(h, st.converge);
    if st.dryRun.Some? {
      assert SameAt(h, h1, st.dryRun.value);
    }
    var h2, dryRun := StatusManifestDeepCopy(h1, st.dryRun);
    if converge.Some? {
      assert SameAt(h1, h2, converge.value);
    }
    ExtendsTransitive(h, h1, h2);
    h', st' := h2, st'.(converge := converge, dryRun := dryRun);
  }

  /** `in.DeepCopyInto(out)`; copying an object onto itself is excluded (see the README). */
  method StatusDeepCopyInto(h: Heap, src: Ref, dst: Ref) returns (h': Heap)
    requires Valid(h) && src in h.statuses && dst in h.statuses && src != dst && StatusOk(h, h.statuses[src])
    ensures Valid(h') && FramedExcept(h, h', dst)
    ensures dst in h'.statuses && StatusOk(h', h'.statuses[dst])
    ensures ResolveStatus(h', h'.statuses[dst]) == ResolveStatus(h, h.statuses[src])
    ensures h'.statuses[dst].converge.None? <==> h.statuses[src].converge.None?
    ensures h'.statuses[dst].dryRun.None? <==> h.statuses[src].dryRun.None?
    ensures InRange(StatusFootprint(h'.statuses[dst]), h.next, h'.next)
  {
    var h1, st := CopyStatusFields(h, h.statuses[src]);
    assert SameAt(h, h1, dst);
    h' := StoreStatus(h1, dst, st);
    ExtendsFramed(h, h1, dst);
    FramedTransitive(h, h1, h', dst);
  }

  method StatusDeepCopy(h: Heap, src: Option<Ref>) returns (h': Heap, out: Option<Ref>)
    requires Valid(h) && PtrIn(src, h.statuses) && (src.Some? ==> StatusOk(h, h.statuses[src.value]))
    ensures out.None? <==> src.None?
    ensures src.None? ==> h' == h
    ensures Valid(h') && Extends(h, h')
    ensures PtrIn(out, h'.statuses)
    ensures out.Some? ==> StatusOk(h', h'.statuses[out.value])
    ensures out.Some? ==> ResolveStatus(h', h'.statuses[out.value]) == ResolveStatus(h, h.statuses[src.value])
    ensures out.Some? ==> InRange({out.value} + StatusFootprint(h'.statuses[out.value]), h.next, h'.next)
  {
    if src.None? {
      return h, None;
    }
    var a := NewStatus(h, ZeroInstanceStatus);
    StatusStable(h, a.heap, h.statuses[src.value]);
    h' := StatusDeepCopyInto(a.heap, src.value, a.copy);
    ExtendsFramed(h, a.heap, a.copy);
    FramedTransitive(h, a.heap, h', a.copy);
    FramedAboveExtends(h, h', a.copy);
    out := Some(a.copy);
  }

  // ---------------------------------------------------------------------------
  // Instance

  /**
   The body of `Instance.DeepCopyInto` applied to the value `*in`; `y` is what
   ends up in `*out`. Type and object metadata are values and are copied as such.
   */
  method CopyInstanceFields(h: Heap, x: Instance) returns (h': Heap, y: Instance)
    requires Valid(h) && InstanceOk(h, x)
    ensures Valid(h') && Extends(h, h')
    ensures InstanceOk(h', y)
    ensures ResolveInstance(h', y) == ResolveInstance(h, x)
    ensures y.spec.None? <==> x.spec.None?
    ensures y.status.None? <==> x.status.None?
    ensures InRange(InstanceFootprint(h', y), h.next, h'.next)
  {
    var h1, spec := SpecDeepCopy(h, x.spec);
    if x.status.Some? {
      assert SameAt(h, h1, x.status.value);
      StatusStable(h, h1, h.statuses[x.status.value]);
    }
    var h2, status := StatusDeepCopy(h1, x.status);
    if spec.Some? {
      assert SameAt(h1, h2, spec.value);
    }
    ExtendsTransitive(h, h1, h2);
    h', y := h2, x.(spec := spec, status := status);
  }

  /** `in.DeepCopyInto(out)`; copying an object onto itself is excluded (see the README). */
  method InstanceDeepCopyInto(h: Heap, src: Ref, dst: Ref) returns (h': Heap)
    requires Valid(h) && src in h.instances && dst in h.instances && src != dst
    requires InstanceOk(h, h.instances[src])
    ensures Valid(h') && FramedExcept(h, h', dst)
    ensures dst in h'.instances && InstanceOk(h', h'.instances[dst])
    ensures ResolveInstance(h', h'.instances[dst]) == ResolveInstance(h, h.instances[src])
    ensures h'.instances[dst].spec.None? <==> h.instances[src].spec.None?
    ensures h'.instances[dst].status.None? <==> h.instances[src].status.None?
    ensures InRange(InstanceFootprint(h', h'.instances[dst]), h.next, h'.next)
  {
    var h1, y := CopyInstanceFields(h, h.instances[src]);
    assert SameAt(h, h1, dst);
    h' := StoreInstance(h1, dst, y);
    ExtendsFramed(h, h1, dst);
    FramedTransitive(h, h1, h', dst);
  }

  /** `in.DeepCopy()`: nil for nil, otherwise a new `Instance` sharing nothing with `*in`. */
  method InstanceDeepCopy(h: Heap, src: Option<Ref>) returns (h': Heap, out: Option<Ref>)
    requires Valid(h) && PtrIn(src, h.instances) && (src.Some? ==> InstanceOk(h, h.instances[src.value]))
    ensures out.None? <==> src.None?
    ensures src.None? ==> h' == h
    ensures Valid(h') && Extends(h, h')
    ensures PtrIn(out, h'.instances)
    ensures out.Some? ==> InstanceOk(h', h'.instances[out.value])
    ensures out.Some? ==> ResolveInstance(h', h'.instances[out.value]) == ResolveInstance(h, h.instances[src.value])
    ensures out.Some? ==> InRange({out.value} + InstanceFootprint(h', h'.instances[out.value]), h.next, h'.next)
    ensures out.Some? ==>
      ({out.value} + InstanceFootprint(h', h'.instances[out.value])) !! ({src.value} + InstanceFootprint(h, h.instances[src.value]))
  {
    if src.None? {
      return h, None;
    }
    InstanceFootprintBelow(h, h.instances[src.value]);
    var a := NewInstance(h, ZeroInstance);
    InstanceStable(h, a.heap, h.instances[src.value]);
    h' := InstanceDeepCopyInto(a.heap, src.value, a.copy);
    ExtendsFramed(h, a.heap, a.copy);
    FramedTransitive(h, a.heap, h', a.copy);
    FramedAboveExtends(h, h', a.copy);
    out := Some(a.copy);
  }

  /** Runtime objects: what `DeepCopyObject` hands back behind the `runtime.Object` interface. */
  datatype Object = InstanceObject(instance: Ref) | InstanceListObject(list: Ref)

  /**
   `in.DeepCopyObject()`: the `DeepCopy` result, with a nil `*Instance` turned
   into a nil interface rather than a non-nil interface holding nil.
   */
  method InstanceDeepCopyObject(h: Heap, src: Option<Ref>) returns (h': Heap, obj: Option<Object>)
    requires Valid(h) && PtrIn(src, h.instances) && (src.Some? ==> InstanceOk(h, h.instances[src.value]))
    ensures obj.None? <==> src.None?
    ensures src.None? ==> h' == h
    ensures Valid(h') && Extends(h, h')
    ensures obj.Some? ==> obj.value.InstanceObject? && obj.value.instance in h'.instances
    ensures obj.Some? ==> InstanceOk(h', h'.instances[obj.value.instance])
    ensures obj.Some? ==> ResolveInstance(h', h'.instances[obj.value.instance]) == ResolveInstance(h, h.instances[src.value])
    ensures obj.Some? ==> InRange({obj.value.instance} + InstanceFootprint(h', h'.instances[obj.value.instance]), h.next, h'.next)
    ensures obj.Some? ==>
      ({obj.value.instance} + InstanceFootprint(h', h'.instances[obj.value.instance]))
        !! ({src.value} + InstanceFootprint(h, h.instances[src.value]))
  {
    var c;
    h', c := InstanceDeepCopy(h, src);
    if c.Some? {
      obj := Some(InstanceObject(c.value));
    } else {
      obj := None;
    }
  }

  // ---------------------------------------------------------------------------
  // InstanceList

  /**
   Storing into one slot of a backing array that no copied instance reaches
   leaves the copied prefix resolving as it did, and extends it by the new slot.
   */
  lemma AppendSlot(h1: Heap, h2: Heap, arr: Ref, p: seq<Instance>, y: Instance, lo: Ref)
    requires ItemsOk(h1, p) && InstanceOk(h1, y)
    requires InRange(ItemsFootprint(h1, p) + InstanceFootprint(h1, y), lo, h1.next)
    requires arr < lo && FramedExcept(h1, h2, arr)
    ensures ItemsOk(h2, p + [y])
    ensures ResolveItems(h2, p + [y]) == ResolveItems(h1, p) + [ResolveInstance(h1, y)]
    ensures ItemsFootprint(h2, p + [y]) == ItemsFootprint(h1, p) + InstanceFootprint(h1, y)
  {
    forall r | r in ItemsFootprint(h1, p) + InstanceFootprint(h1, y)
      ensures AgreeAt(h1, h2, r)
    {
      assert SameAt(h1, h2, r);
    }
    ItemsFrame(h1, h2, p);
    InstanceFrame(h1, h2, y);
    assert (p + [y])[..|p|] == p;
  }

  /** Resolving a prefix one element longer appends that element's resolution. */
  lemma ResolveItemsSnoc(h: Heap, xs: seq<Instance>, i: nat)
    requires ItemsOk(h, xs) && i < |xs|
    ensures ItemsOk(h, xs[..i]) && ItemsOk(h, xs[..i + 1])
    ensures ResolveItems(h, xs[..i + 1]) == ResolveItems(h, xs[..i]) + [ResolveInstance(h, xs[i])]
  {
  }

  /**
   One iteration of the copy loop: `(*in)[i].DeepCopyInto(&(*out)[i])` with
   the new backing array at `arr`, whose first `i` slots already hold copies.
   */
  method CopySlot(h0: Heap, xs: seq<Instance>, h: Heap, arr: Ref, i: nat) returns (h': Heap)
    requires Valid(h0) && ItemsOk(h0, xs) && i < |xs|
    requires Valid(h) && Extends(h0, h) && h0.next == arr < h.next
    requires arr in h.arrays && |h.arrays[arr]| == |xs|
    requires ItemsOk(h, h.arrays[arr][..i])
    requires ResolveItems(h, h.arrays[arr][..i]) == ResolveItems(h0, xs[..i])
    requires InRange(ItemsFootprint(h, h.arrays[arr][..i]), arr + 1, h.next)
    ensures Valid(h') && Extends(h0, h') && arr < h'.next
    ensures arr in h'.arrays && |h'.arrays[arr]| == |xs|
    ensures ItemsOk(h', h'.arrays[arr][..i + 1])
    ensures ResolveItems(h', h'.arrays[arr][..i + 1]) == ResolveItems(h0, xs[..i + 1])
    ensures InRange(ItemsFootprint(h', h'.arrays[arr][..i + 1]), arr + 1, h'.next)
  {
    var prefix := h.arrays[arr][..i];
    InstanceStable(h0, h, xs[i]);
    var h1, y := CopyInstanceFields(h, xs[i]);
    assert SameAt(h, h1, arr);
    ItemsStable(h, h1, prefix);
    h' := StoreSlot(h1, arr, i, y);
    assert h'.arrays[arr][..i + 1] == prefix + [y];
    AppendSlot(h1, h', arr, prefix, y, arr + 1);
    ResolveItemsSnoc(h0, xs, i);
    ExtendsTransitive(h0, h, h1);
    ExtendsFramed(h0, h1, arr);
    FramedTransitive(h0, h1, h', arr);
    FramedAboveExtends(h0, h', arr);
  }

  /**
   `*out = make([]Instance, len(*in))` followed by `(*in)[i].DeepCopyInto(&(*out)[i])`
   for every index: a new backing array whose instances resolve, in order, to
   those of `xs` and share nothing with them.
   */
  method CopyItems(h: Heap, xs: seq<Instance>) returns (h': Heap, arr: Ref)
    requires Valid(h) && ItemsOk(h, xs)
    ensures Valid(h') && Extends(h, h')
    ensures arr in h'.arrays && ItemsOk(h', h'.arrays[arr])
    ensures ResolveItems(h', h'.arrays[arr]) == ResolveItems(h, xs)
    ensures InRange({arr} + ItemsFootprint(h', h'.arrays[arr]), h.next, h'.next)
  {
    var a := NewArray(h, seq(|xs|, _ => ZeroInstance));
    h', arr := a.heap, a.copy;
    for i := 0 to |xs|
      invariant Valid(h') && Extends(h, h') && h.next == arr < h'.next
      invariant arr in h'.arrays && |h'.arrays[arr]| == |xs|
      invariant ItemsOk(h', h'.arrays[arr][..i])
      invariant ResolveItems(h', h'.arrays[arr][..i]) == ResolveItems(h, xs[..i])
      invariant InRange(ItemsFootprint(h', h'.arrays[arr][..i]), arr + 1, h'.next)
    {
      h' := CopySlot(h, xs, h', arr, i);
    }
    assert h'.arrays[arr][..|xs|] == h'.arrays[arr];
    assert xs[..|xs|] == xs;
  }

  /**
   `in.DeepCopyInto(out)` for lists: a nil `Items` stays nil, a non-nil one
   (even of length zero) gets a new backing array of copied instances. The
   list object and the new array are distinct, so storing the list after the
   array is filled ends in the same heap as Go's store-then-fill order.
   */
  method InstanceListDeepCopyInto(h: Heap, src: Ref, dst: Ref) returns (h': Heap)
    requires Valid(h) && src in h.lists && dst in h.lists && src != dst
    requires ListOk(h, h.lists[src])
    ensures Valid(h') && FramedExcept(h, h', dst)
    ensures dst in h'.lists && ListOk(h', h'.lists[dst])
    ensures ResolveList(h', h'.lists[dst]) == ResolveList(h, h.lists[src])
    ensures h'.lists[dst].items.None? <==> h.lists[src].items.None?
    ensures InRange(ListFootprint(h', h'.lists[dst]), h.next, h'.next)
  {
    var l := h.lists[src];
    if l.items.None? {
      h' := StoreList(h, dst, l);
      return;
    }
    var h1, arr := CopyItems(h, h.arrays[l.items.value]);
    assert SameAt(h, h1, dst);
    h' := StoreList(h1, dst, l.(items := Some(arr)));
    forall r | r in ItemsFootprint(h1, h1.arrays[arr])
      ensures AgreeAt(h1, h', r)
    {
      assert SameAt(h1, h', r);
    }
    ItemsFrame(h1, h', h1.arrays[arr]);
    ExtendsFramed(h, h1, dst);
    FramedTransitive(h, h1, h', dst);
  }

  /** `in.DeepCopy()` for lists. */
  method InstanceListDeepCopy(h: Heap, src: Option<Ref>) returns (h': Heap, out: Option<Ref>)
    requires Valid(h) && PtrIn(src, h.lists) && (src.Some? ==> ListOk(h, h.lists[src.value]))
    ensures out.None? <==> src.None?
    ensures src.None? ==> h' == h
    ensures Valid(h') && Extends(h, h')
    ensures PtrIn(out, h'.lists)
    ensures out.Some? ==> ListOk(h', h'.lists[out.value])
    ensures out.Some? ==> ResolveList(h', h'.lists[out.value]) == ResolveList(h, h.lists[src.value])
    ensures out.Some? ==> InRange({out.value} + ListFootprint(h', h'.lists[out.value]), h.next, h'.next)
    ensures out.Some? ==>
      ({out.value} + ListFootprint(h', h'.lists[out.value])) !! ({src.value} + ListFootprint(h, h.lists[src.value]))
  {
    if src.None? {
      return h, None;
    }
    ListFootprintBelow(h, h.lists[src.value]);
    var a := NewList(h, ZeroInstanceList);
    ListStable(h, a.heap, h.lists[src.value]);
    h' := InstanceListDeepCopyInto(a.heap, src.value, a.copy);
    ExtendsFramed(h, a.heap, a.copy);
    FramedTransitive(h, a.heap, h', a.copy);
    FramedAboveExtends(h, h', a.copy);
    out := Some(a.copy);
  }

  /** `in.DeepCopyObject()` for lists, with the same nil-interface guard as for instances. */
  method InstanceListDeepCopyObject(h: Heap, src: Option<Ref>) returns (h': Heap, obj: Option<Object>)
    requires Valid(h) && PtrIn(src, h.lists) && (src.Some? ==> ListOk(h, h.lists[src.value]))
    ensures obj.None? <==> src.None?
    ensures src.None? ==> h' == h
    ensures Valid(h') && Extends(h, h')
    ensures obj.Some? ==> obj.value.InstanceListObject? && obj.value.list in h'.lists
    ensures obj.Some? ==> ListOk(h', h'.lists[obj.value.list])
    ensures obj.Some? ==> ResolveList(h', h'.lists[obj.value.list]) == ResolveList(h, h.lists[src.value])
    ensures obj.Some? ==> InRange({obj.value.list} + ListFootprint(h', h'.lists[obj.value.list]), h.next, h'.next)
    ensures obj.Some? ==>
      ({obj.value.list} + ListFootprint(h', h'.lists[obj.value.list])) !! ({src.value} + ListFootprint(h, h.lists[src.value]))
  {
    var c;
    h', c := InstanceListDeepCopy(h, src);
    if c.Some? {
      obj := Some(InstanceListObject(c.value));
    } else {
      obj := None;
    }
  }

  // ---------------------------------------------------------------------------
  // Independence of a copy from its original

  /**
   Whatever is later written through a copy returned by `InstanceDeepCopy` —
   the copied `Instance` itself or any `Spec`, `Status`, `Converge` or `DryRun`
   it reaches — the original still resolves to what it did before the copy.
   */
  lemma InstanceCopyIndependent(h: Heap, h': Heap, h2: Heap, src: Ref, out: Ref)
    requires Valid(h) && src in h.instances && InstanceOk(h, h.instances[src])
    requires Extends(h, h') && out in h'.instances && InstanceOk(h', h'.instances[out])
    requires InRange({out} + InstanceFootprint(h', h'.instances[out]), h.next, h'.next)
    requires forall r: Ref :: r !in {out} + InstanceFootprint(h', h'.instances[out]) ==> SameAt(h', h2, r)
    ensures src in h2.instances && h2.instances[src] == h.instances[src]
    ensures InstanceOk(h2, h.instances[src])
    ensures ResolveInstance(h2, h.instances[src]) == ResolveInstance(h, h.instances[src])
  {
    var x := h.instances[src];
    assert SameAt(h, h', src) && SameAt(h', h2, src);
    InstanceFootprintBelow(h, x);
    forall r | r in InstanceFootprint(h, x)
      ensures AgreeAt(h, h2, r)
    {
      assert SameAt(h, h', r) && SameAt(h', h2, r);
    }
    InstanceFrame(h, h2, x);
  }

  /** The same for lists: writes through the copied list, its array or its instances leave the original alone. */
  lemma ListCopyIndependent(h: Heap, h': Heap, h2: Heap, src: Ref, out: Ref)
    requires Valid(h) && src in h.lists && ListOk(h, h.lists[src])
    requires Extends(h, h') && out in h'.lists && ListOk(h', h'.lists[out])
    requires InRange({out} + ListFootprint(h', h'.lists[out]), h.next, h'.next)
    requires forall r: Ref :: r !in {out} + ListFootprint(h', h'.lists[out]) ==> SameAt(h', h2, r)
    ensures src in h2.lists && h2.lists[src] == h.lists[src]
    ensures ListOk(h2, h.lists[src])
    ensures ResolveList(h2, h.lists[src]) == ResolveList(h, h.lists[src])
  {
    var l := h.lists[src];
    assert SameAt(h, h', src) && SameAt(h', h2, src);
    ListFootprintBelow(h, l);
    forall r | r in ListFootprint(h, l)
      ensures AgreeAt(h, h2, r)
    {
      assert SameAt(h, h', r) && SameAt(h', h2, r);
    }
    ListFrame(h, h2, l);
  }
}
