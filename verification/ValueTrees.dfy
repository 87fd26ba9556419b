/**
 Structural equality against a definition of its own: the tree a value unfolds
 to.  Two values are equal exactly when they unfold to the same tree, NaN aside
 (`values_eq` in `runtime/src/heap.rs`).
 */
module ValueTrees {
  import opened Values
  import opened Heaps
  import opened Equality

  /** A scalar, or an object with its children unfolded. */
  datatype Tree = Leaf(v: Value) | Node(head: Obj, kids: seq<Tree>)

  /** An object without its children: kind, type id, tag, function or text. */
  function Bare(o: Obj): Obj {
    match o
    case ListObj(_) => ListObj([])
    case MapObj(_) => MapObj([])
    case StructObj(ty, _) => StructObj(ty, [])
    case EnumObj(ty, tag, _) => EnumObj(ty, tag, [])
    case ClosureObj(f, _) => ClosureObj(f, [])
    case _ => o
  }

  function TreeOf(slots: seq<Slot>, w: Ranking, v: Value): Tree
    requires Ranked(slots, w) && Grounded(w, v)
    decreases Height(w, v), 0, 0
  {
    if v.Ref? then Node(Bare(slots[v.h].obj), TreesOf(slots, w, Children(slots[v.h].obj), w[v.h]))
    else if v.Double? && IsZero(v.bits) then Leaf(Double(0))
    else Leaf(v)
  }

  function TreesOf(slots: seq<Slot>, w: Ranking, vs: seq<Value>, m: nat): (r: seq<Tree>)
    requires Ranked(slots, w) && AllGrounded(w, vs, m)
    ensures |r| == |vs|
    decreases m, 1, |vs|
  {
    if vs == [] then [] else TreesOf(slots, w, Init(vs), m) + [TreeOf(slots, w, Last(vs))]
  }

  predicate NoNan(t: Tree) {
    match t
    case Leaf(v) => v.Double? ==> !IsNan(v.bits)
    case Node(_, kids) => forall i :: 0 <= i < |kids| ==> NoNan(kids[i])
  }

  /** Objects are equal exactly when they agree without their children and their children are equal in order. */
  lemma ObjsEqualExactly(slots: seq<Slot>, w: Ranking, o: Obj, p: Obj, m: nat, n: nat)
    requires Ranked(slots, w) && AllGrounded(w, Children(o), m) && AllGrounded(w, Children(p), n)
    ensures ObjsEq(slots, w, o, p, m, n) <==> Bare(o) == Bare(p) && SeqEq(slots, w, Children(o), Children(p), m, n)
  {
  }

  /** Sequences of values are equal exactly when they are as long and equal at every position. */
  lemma {:induction false} SeqEqualExactly(slots: seq<Slot>, w: Ranking, xs: seq<Value>, ys: seq<Value>, m: nat, n: nat)
    requires Ranked(slots, w) && AllGrounded(w, xs, m) && AllGrounded(w, ys, n)
    ensures SeqEq(slots, w, xs, ys, m, n)
       <==> |xs| == |ys| && forall i :: 0 <= i < |xs| ==> ValuesEq(slots, w, xs[i], ys[i])
    decreases |xs|
  {
    if xs == [] || ys == [] {
    } else {
      var a, b := Init(xs), Init(ys);
      SeqEqualExactly(slots, w, a, b, m, n);
      assert forall i :: 0 <= i < |a| ==> a[i] == xs[i];
      assert forall i :: 0 <= i < |b| ==> b[i] == ys[i];
    }
  }

  /** Equal values unfold to the same tree, and a tree without NaN is shared only by equal values. */
  lemma {:induction false} EqualIsSameTree(slots: seq<Slot>, w: Ranking, a: Value, b: Value)
    requires Ranked(slots, w) && Grounded(w, a) && Grounded(w, b)
    ensures ValuesEq(slots, w, a, b) ==> TreeOf(slots, w, a) == TreeOf(slots, w, b)
    ensures NoNan(TreeOf(slots, w, a)) && TreeOf(slots, w, a) == TreeOf(slots, w, b) ==> ValuesEq(slots, w, a, b)
    decreases Height(w, a), 0, 0
  {
    if a.Ref? && b.Ref? {
      var o, p := slots[a.h].obj, slots[b.h].obj;
      ObjsEqualExactly(slots, w, o, p, w[a.h], w[b.h]);
      SeqsAreSameTrees(slots, w, Children(o), Children(p), w[a.h], w[b.h]);
      if NoNan(TreeOf(slots, w, a)) {
        assert NoNans(TreesOf(slots, w, Children(o), w[a.h]));
      }
    }
  }

  predicate NoNans(ts: seq<Tree>) { forall i :: 0 <= i < |ts| ==> NoNan(ts[i]) }

  lemma {:induction false} SeqsAreSameTrees(
      slots: seq<Slot>, w: Ranking, xs: seq<Value>, ys: seq<Value>, m: nat, n: nat)
    requires Ranked(slots, w) && AllGrounded(w, xs, m) && AllGrounded(w, ys, n)
    ensures SeqEq(slots, w, xs, ys, m, n) ==> TreesOf(slots, w, xs, m) == TreesOf(slots, w, ys, n)
    ensures NoNans(TreesOf(slots, w, xs, m)) && TreesOf(slots, w, xs, m) == TreesOf(slots, w, ys, n) ==>
              SeqEq(slots, w, xs, ys, m, n)
    decreases m, 1, |xs|
  {
    if xs == [] || ys == [] {
    } else {
      EqualIsSameTree(slots, w, Last(xs), Last(ys));
      SeqsAreSameTrees(slots, w, Init(xs), Init(ys), m, n);
      LastTrees(TreesOf(slots, w, Init(xs), m), TreeOf(slots, w, Last(xs)),
                TreesOf(slots, w, Init(ys), n), TreeOf(slots, w, Last(ys)));
    }
  }

  lemma LastTrees(ts: seq<Tree>, t: Tree, us: seq<Tree>, u: Tree)
    ensures ts + [t] == us + [u] <==> ts == us && t == u
    ensures NoNans(ts + [t]) ==> NoNans(ts) && NoNan(t)
  {
    if ts + [t] == us + [u] {
      assert (ts + [t])[..|ts|] == ts && (us + [u])[..|us|] == us;
      assert (ts + [t])[|ts|] == t && (us + [u])[|us|] == u;
    }
    if NoNans(ts + [t]) {
      assert forall i :: 0 <= i < |ts| ==> (ts + [t])[i] == ts[i];
      assert (ts + [t])[|ts|] == t;
    }
  }

  /** A NaN is equal to nothing, itself included, so no object that holds one equals a copy of itself. */
  lemma NanBreaksCopies(slots: seq<Slot>, w: Ranking, a: nat, b: nat, i: nat)
    requires Ranked(slots, w) && a in w && b in w && a != b && i < |Children(slots[a].obj)|
    requires Children(slots[a].obj)[i].Double? && IsNan(Children(slots[a].obj)[i].bits)
    ensures !ValuesEq(slots, w, Ref(a), Ref(b)) && ValuesEq(slots, w, Ref(a), Ref(a))
  {
    var o, p := slots[a].obj, slots[b].obj;
    ObjsEqualExactly(slots, w, o, p, w[a], w[b]);
    SeqEqualExactly(slots, w, Children(o), Children(p), w[a], w[b]);
  }
}
