/** The two mutations the executor sends: a JSON Patch (RFC 6902) with preconditions, and the
    namespace finalize call. */
module JsonPatch {
  import opened Types

  /** A stored Kubernetes object, as far as the executor looks at it. `specFinalizers` is empty for
      everything but namespaces. */
  datatype Obj = Obj(
    uid: string, rv: string, labels: map<string, string>,
    finalizers: seq<string>, specFinalizers: seq<string>, deleting: bool)

  datatype Json = Text(text: string) | List(items: seq<string>)

  /** The JSON Pointers that occur in finalizerPatch. */
  datatype Pointer = UidPath | RvPath | FinalizersPath | FinalizerAt(index: nat)

  datatype Op = Test(path: Pointer, value: Json) | Remove(path: Pointer)

  function ValueAt(o: Obj, p: Pointer): Option<Json> {
    match p
    case UidPath => Some(Text(o.uid))
    case RvPath => Some(Text(o.rv))
    case FinalizersPath => if o.finalizers == [] then None else Some(List(o.finalizers))
    case FinalizerAt(i) => if i < |o.finalizers| then Some(Text(o.finalizers[i])) else None
  }

  function Without(s: seq<string>, i: nat): seq<string>
    requires i < |s|
  {
    s[..i] + s[i + 1..]
  }

  /** Section 4.6: a test needs an equal value at the path. Section 4.2: a removal needs the target to
      exist and closes the gap in an array. */
  function ApplyOp(o: Obj, op: Op): Option<Obj> {
    match op
    case Test(path, value) => if ValueAt(o, path) == Some(value) then Some(o) else None
    case Remove(path) =>
      if path.FinalizerAt? && path.index < |o.finalizers|
      then Some(o.(finalizers := Without(o.finalizers, path.index))) else None
  }

  /** Section 5: operations apply in order and the first failure voids the whole patch. */
  function ApplyPatch(o: Obj, ops: seq<Op>): Option<Obj>
    decreases |ops|
  {
    if ops == [] then Some(o)
    else match ApplyOp(o, ops[0])
      case None => None
      case Some(o') => ApplyPatch(o', ops[1..])
  }

  /** executor.finalizerPatch. */
  function FinalizerPatch(read: Obj, index: nat): seq<Op> {
    [Test(UidPath, Text(read.uid)), Test(RvPath, Text(read.rv)), Test(FinalizersPath, List(read.finalizers)),
     Remove(FinalizerAt(index))]
  }

  /** slices.Index. */
  function IndexOf(s: seq<string>, x: string): (r: Option<nat>)
    ensures r.Some? ==> r.value < |s| && s[r.value] == x && x !in s[..r.value]
    ensures r.None? <==> x !in s
  {
    if s == [] then None
    else if s[0] == x then Some(0)
    else
      var rest := IndexOf(s[1..], x);
      assert s == [s[0]] + s[1..];
      if rest.None? then None
      else
        assert s[..rest.value + 1] == [s[0]] + s[1..][..rest.value];
        Some(rest.value + 1)
  }

  /** The patch changes the stored object exactly when UID, resource version and the whole finalizer
      list are as read, and then it removes the one element at `index` and nothing else. */
  lemma PatchEffect(read: Obj, index: nat, stored: Obj)
    requires index < |read.finalizers|
    ensures ApplyPatch(stored, FinalizerPatch(read, index)) ==
              if stored.uid == read.uid && stored.rv == read.rv && stored.finalizers == read.finalizers
              then Some(stored.(finalizers := Without(read.finalizers, index))) else None
  {
    var t1, t2 := Test(UidPath, Text(read.uid)), Test(RvPath, Text(read.rv));
    var t3 := Test(FinalizersPath, List(read.finalizers));
    var r := Remove(FinalizerAt(index));
    assert FinalizerPatch(read, index) == [t1] + ([t2] + ([t3] + ([r] + [])));
    PatchCons(stored, t1, [t2] + ([t3] + ([r] + [])));
    PatchCons(stored, t2, [t3] + ([r] + []));
    PatchCons(stored, t3, [r] + []);
    PatchCons(stored, r, []);
  }

  lemma PatchCons(o: Obj, op: Op, rest: seq<Op>)
    ensures ApplyPatch(o, [op] + rest) ==
              if ApplyOp(o, op).None? then None else ApplyPatch(ApplyOp(o, op).value, rest)
  {
    assert ([op] + rest)[1..] == rest;
  }

  ghost predicate NoDuplicates(s: seq<string>) { forall i, j :: 0 <= i < j < |s| ==> s[i] != s[j] }

  /** Exactly one element equal to `x` goes, the others keep their order; in a list without
      duplicates none is left. */
  lemma RemoveFirst(s: seq<string>, x: string)
    requires x in s
    ensures var i := IndexOf(s, x).value;
            var r := Without(s, i);
            && s == r[..i] + [x] + r[i..]
            && multiset(r) == multiset(s) - multiset{x}
            && (NoDuplicates(s) ==> x !in r)
  {
    var i := IndexOf(s, x).value;
    var r := Without(s, i);
    assert r[..i] == s[..i] && r[i..] == s[i + 1..];
    assert s == s[..i] + [x] + s[i + 1..];
  }

  datatype Request = Patch(ops: seq<Op>) | Finalize(uid: string, rv: string)

  /** What the API server makes of a request against the stored object: its new content, or a refusal.
      The finalize sub-resource replaces spec.finalizers, guarded by UID and resource version. */
  function Serve(stored: Obj, req: Request): Option<Obj> {
    match req
    case Patch(ops) => ApplyPatch(stored, ops)
    case Finalize(uid, rv) => if stored.uid == uid && stored.rv == rv then Some(stored.(specFinalizers := [])) else None
  }

  /** A deleting object whose last finalizer goes is removed by the API server. */
  predicate Vanishes(o: Obj) { o.deleting && o.finalizers == [] && o.specFinalizers == [] }
}
