/** JSON values and the operations that turn one revision into the next. */
module Delta {

  datatype Option<+T> = None | Some(value: T)

  datatype Json =
    | Null
    | Bool(b: bool)
    | Number(n: real)
    | Str(s: string)
    | Arr(items: seq<Json>)
    | Obj(fields: map<string, Json>)

  /** Arrays are addressed by index, objects by name. */
  datatype Seg = Name(name: string) | Index(i: nat)

  type Path = seq<Seg>

  type NonEmptyPath = p: Path | p != [] witness [Index(0)]

  /** What an operation does to the slot its path names. */
  datatype Edit = Put(value: Json) | Remove | AppendText(text: string) | CutText(n: nat)

  datatype Op =
    | Replace(value: Json)
    | Write(path: NonEmptyPath, edit: Edit)
    | Splice(target: Path, start: nat, remove: nat, items: seq<Json>)
    | Permute(target: Path, permutation: seq<nat>)

  predicate Primitive(v: Json) {
    !v.Arr? && !v.Obj?
  }

  function Child(v: Json, seg: Seg): Option<Json> {
    match (v, seg)
    case (Arr(items), Index(i)) => if i < |items| then Some(items[i]) else None
    case (Obj(fields), Name(name)) => if name in fields then Some(fields[name]) else None
    case _ => None
  }

  /** Write `child` into a slot that exists, or one past the end of an array. */
  function WithChild(v: Json, seg: Seg, child: Json): Option<Json> {
    match (v, seg)
    case (Arr(items), Index(i)) =>
      if i < |items| then Some(Arr(items[i := child])) else if i == |items| then Some(Arr(items + [child])) else None
    case (Obj(fields), Name(name)) => Some(Obj(fields[name := child]))
    case _ => None
  }

  function EditSlot(v: Json, seg: Seg, edit: Edit): Option<Json> {
    match edit
    case Put(value) => WithChild(v, seg, value)
    case Remove => (
      match (v, seg)
      case (Arr(items), Index(i)) => if i < |items| then Some(Arr(items[..i] + items[i + 1..])) else None
      case (Obj(fields), Name(name)) => Some(Obj(fields - {name}))
      case _ => None)
    case AppendText(text) => (
      match Child(v, seg)
      case Some(Str(s)) => WithChild(v, seg, Str(s + text))
      case _ => None)
    case CutText(n) =>
      match Child(v, seg)
      case Some(Str(s)) => WithChild(v, seg, Str(if n <= |s| then s[n..] else ""))
      case _ => None
  }

  /** Edit the slot at `path`; the root has no slot. */
  function EditAt(v: Json, path: Path, edit: Edit): Option<Json> {
    if path == [] then None
    else if |path| == 1 then EditSlot(v, path[0], edit)
    else
      match Child(v, path[0])
      case None => None
      case Some(child) =>
        match EditAt(child, path[1..], edit)
        case None => None
        case Some(child') => WithChild(v, path[0], child')
  }

  function SpliceItems(all: seq<Json>, start: nat, remove: nat, items: seq<Json>): seq<Json> {
    var from := if start <= |all| then start else |all|;
    var to := if from + remove <= |all| then from + remove else |all|;
    all[..from] + items + all[to..]
  }

  /** Every index once */
  predicate IsPermutation(permutation: seq<nat>) {
    && (forall i | 0 <= i < |permutation| :: permutation[i] < |permutation|)
    && forall i, j | 0 <= i < j < |permutation| :: permutation[i] != permutation[j]
  }

  function EditArray(v: Json, path: Path, op: Op): Option<Json>
    requires op.Splice? || op.Permute?
  {
    if path == [] then
      match (v, op)
      case (Arr(all), Splice(_, start, remove, items)) => Some(Arr(SpliceItems(all, start, remove, items)))
      case (Arr(all), Permute(_, permutation)) =>
        if |permutation| == |all| && IsPermutation(permutation)
        then Some(Arr(seq(|all|, i requires 0 <= i < |all| => all[permutation[i]])))
        else None
      case _ => None
    else
      match Child(v, path[0])
      case None => None
      case Some(child) =>
        match EditArray(child, path[1..], op)
        case None => None
        case Some(child') => WithChild(v, path[0], child')
  }

  /** Apply one operation; `None` where the source throws. */
  function Apply(v: Json, op: Op): Option<Json> {
    match op
    case Replace(value) => Some(value)
    case Write(path, edit) => EditAt(v, path, edit)
    case _ => EditArray(v, op.target, op)
  }

  function Run(v: Json, ops: seq<Op>): Option<Json>
    decreases ops
  {
    if ops == [] then Some(v) else
      match Apply(v, ops[0])
      case None => None
      case Some(v') => Run(v', ops[1..])
  }

  lemma {:induction false} RunConcat(v: Json, a: seq<Op>, b: seq<Op>)
    ensures Run(v, a + b) == match Run(v, a) case None => None case Some(v') => Run(v', b)
    decreases a
  {
    if a == [] {
      assert a + b == b;
    } else {
      assert (a + b)[1..] == a[1..] + b;
      match Apply(v, a[0]) {
        case None =>
        case Some(v') => RunConcat(v', a[1..], b);
      }
    }
  }

  // ---------------------------------------------------------------- what an operation changes

  /** What is at `path` */
  function At(v: Json, path: Path): Option<Json> {
    if path == [] then Some(v) else
      match Child(v, path[0])
      case None => None
      case Some(child) => At(child, path[1..])
  }

  /** Neither of the paths leads through the other. */
  predicate Apart(p: Path, q: Path) {
    p != [] && q != [] && (p[0] != q[0] || Apart(p[1..], q[1..]))
  }

  /** The path to the container of a slot */
  function Parent(path: NonEmptyPath): Path {
    path[..|path| - 1]
  }

  function Last(path: NonEmptyPath): Seg {
    path[|path| - 1]
  }

  lemma {:induction false} AtNext(v: Json, path: NonEmptyPath)
    ensures At(v, path) ==
            if At(v, Parent(path)).Some? then Child(At(v, Parent(path)).value, Last(path)) else None
  {
    if |path| > 1 && Child(v, path[0]).Some? {
      AtNext(Child(v, path[0]).value, path[1..]);
      assert Parent(path)[1..] == Parent(path[1..]) && Parent(path)[0] == path[0];
    }
  }

  /** An edit is one of the slot in its container, wherever that is. */
  lemma {:induction false} EditsSlot(v: Json, path: NonEmptyPath, edit: Edit)
    ensures EditAt(v, path, edit).Some? <==>
              At(v, Parent(path)).Some? && EditSlot(At(v, Parent(path)).value, Last(path), edit).Some?
    ensures EditAt(v, path, edit).Some? ==>
              At(EditAt(v, path, edit).value, Parent(path)) == EditSlot(At(v, Parent(path)).value, Last(path), edit)
  {
    if |path| > 1 {
      assert Parent(path)[1..] == Parent(path[1..]) && Parent(path)[0] == path[0];
      if Child(v, path[0]).Some? {
        EditsSlot(Child(v, path[0]).value, path[1..], edit);
        if EditAt(v, path, edit).Some? {
          ChildWritten(v, path[0], EditAt(Child(v, path[0]).value, path[1..], edit).value);
        }
      }
    }
  }

  /** Nothing else changes, unless a removed item lets those after it move up. */
  lemma {:induction false} EditsOnly(v: Json, path: NonEmptyPath, edit: Edit, q: Path)
    requires EditAt(v, path, edit).Some? && Apart(path, q) && !(edit.Remove? && Last(path).Index?)
    ensures At(EditAt(v, path, edit).value, q) == At(v, q)
  {
    var w := EditAt(v, path, edit).value;
    if |path| > 1 {
      var c := EditAt(Child(v, path[0]).value, path[1..], edit).value;
      if path[0] == q[0] {
        ChildWritten(v, path[0], c);
        EditsOnly(Child(v, path[0]).value, path[1..], edit, q[1..]);
      } else {
        ChildKept(v, path[0], c, q[0]);
      }
    } else {
      SlotKept(v, path[0], edit, q[0]);
    }
  }

  lemma ChildKept(v: Json, seg: Seg, c: Json, other: Seg)
    requires seg != other && WithChild(v, seg, c).Some?
    ensures Child(WithChild(v, seg, c).value, other) == Child(v, other)
  {
  }

  lemma SlotKept(v: Json, seg: Seg, edit: Edit, other: Seg)
    requires seg != other && EditSlot(v, seg, edit).Some? && !(edit.Remove? && seg.Index?)
    ensures Child(EditSlot(v, seg, edit).value, other) == Child(v, other)
  {
  }

  /** Where a slot can be edited, and what is in it then */
  lemma SlotReads(v: Json, seg: Seg, edit: Edit)
    ensures var w, was := EditSlot(v, seg, edit), Child(v, seg);
            && (edit.Put? ==>
                  && (w.Some? <==> (v.Arr? && seg.Index? && seg.i <= |v.items|) || (v.Obj? && seg.Name?))
                  && (w.Some? ==> Child(w.value, seg) == Some(edit.value)))
            && (edit.Remove? ==>
                  && (w.Some? <==> (v.Arr? && seg.Index? && seg.i < |v.items|) || (v.Obj? && seg.Name?))
                  && (v.Arr? && w.Some? ==> w.value == Arr(v.items[..seg.i] + v.items[seg.i + 1..]))
                  && (v.Obj? && w.Some? ==> w.value.Obj? && seg.name !in w.value.fields))
            && (edit.AppendText? ==>
                  && (w.Some? <==> was.Some? && was.value.Str?)
                  && (w.Some? ==> Child(w.value, seg) == Some(Str(was.value.s + edit.text))))
            && (edit.CutText? ==>
                  && (w.Some? <==> was.Some? && was.value.Str?)
                  && (w.Some? ==>
                        && (edit.n <= |was.value.s| ==> Child(w.value, seg) == Some(Str(was.value.s[edit.n..])))
                        && (edit.n > |was.value.s| ==> Child(w.value, seg) == Some(Str("")))))
  {
  }

  /** A splice or a permutation changes one array. */
  lemma {:induction false} ArrayEdited(v: Json, path: Path, op: Op, q: Path)
    requires op.Splice? || op.Permute?
    ensures EditArray(v, path, op).Some? <==>
              && At(v, path).Some? && At(v, path).value.Arr?
              && (op.Permute? ==> |op.permutation| == |At(v, path).value.items| && IsPermutation(op.permutation))
    ensures EditArray(v, path, op).Some? ==>
              && At(EditArray(v, path, op).value, path) == EditArray(At(v, path).value, [], op)
              && (Apart(path, q) ==> At(EditArray(v, path, op).value, q) == At(v, q))
  {
    hide IsPermutation, SpliceItems;
    if path != [] && Child(v, path[0]).Some? {
      var child := Child(v, path[0]).value;
      ArrayEdited(child, path[1..], op, if q == [] then [] else q[1..]);
      if EditArray(child, path[1..], op).Some? {
        var c := EditArray(child, path[1..], op).value;
        ChildWritten(v, path[0], c);
        if Apart(path, q) && path[0] != q[0] {
          ChildKept(v, path[0], c, q[0]);
        }
      }
    }
  }

  /** Items before and after the removed ones stay, and the new ones are between them. */
  lemma SpliceReads(all: seq<Json>, start: nat, remove: nat, items: seq<Json>)
    ensures var after := SpliceItems(all, start, remove, items);
            if start > |all| then after == all + items
            else if start + remove > |all| then after == all[..start] + items
            else after == all[..start] + items + all[start + remove..]
  {
  }

  lemma PermuteReads(all: seq<Json>, permutation: seq<nat>, target: Path, i: nat)
    requires |permutation| == |all| && IsPermutation(permutation) && i < |all|
    ensures var after := EditArray(Arr(all), [], Permute(target, permutation));
            && after.Some? && after.value.Arr? && |after.value.items| == |all|
            && after.value.items[i] == all[permutation[i]]
  {
  }

  // ---------------------------------------------------------------- leaf writes commute

  /** A write of a primitive, or an append: the only ones a queue may reorder. */
  predicate IsLeafEdit(edit: Edit) {
    (edit.Put? && Primitive(edit.value)) || edit.AppendText?
  }

  predicate IsLeaf(op: Op) {
    op.Write? && IsLeafEdit(op.edit)
  }

  /** Walking `path` from `v` ends at a primitive, at its end or before. */
  predicate Ends(v: Json, path: Path) {
    Primitive(v) || (path != [] && Child(v, path[0]).Some? && Ends(Child(v, path[0]).value, path[1..]))
  }

  lemma {:induction false} LeafEnds(v: Json, path: Path, edit: Edit)
    requires path != [] && IsLeafEdit(edit) && EditAt(v, path, edit).Some?
    ensures Ends(EditAt(v, path, edit).value, path)
  {
    var v' := EditAt(v, path, edit).value;
    if |path| > 1 {
      LeafEnds(Child(v, path[0]).value, path[1..], edit);
      assert Child(v', path[0]).Some?;
    }
  }

  lemma {:induction false} EndsPersists(v: Json, p: Path, q: Path, edit: Edit)
    requires Ends(v, p) && p != q && q != [] && IsLeafEdit(edit) && EditAt(v, q, edit).Some?
    ensures Ends(EditAt(v, q, edit).value, p)
  {
    if p[0] == q[0] && |q| > 1 {
      EndsPersists(Child(v, p[0]).value, p[1..], q[1..], edit);
    }
  }

  lemma WithChildTwice(v: Json, seg: Seg, c: Json, d: Json)
    requires WithChild(v, seg, c).Some?
    ensures WithChild(WithChild(v, seg, c).value, seg, d) == WithChild(v, seg, d)
  {
    match v
    case Arr(items) =>
      if seg.i == |items| {
        assert (items + [c])[seg.i := d] == items + [d];
      } else {
        assert items[seg.i := c][seg.i := d] == items[seg.i := d];
      }
    case Obj(fields) => assert fields[seg.name := c][seg.name := d] == fields[seg.name := d];
  }

  /** Writes to two slots commute when one of them exists. */
  lemma WithChildCommutes(v: Json, s: Seg, c: Json, t: Seg, d: Json)
    requires s != t && Child(v, s).Some? && WithChild(v, t, d).Some?
    ensures WithChild(v, s, c).Some? && WithChild(WithChild(v, t, d).value, s, c).Some?
    ensures WithChild(WithChild(v, s, c).value, t, d) == WithChild(WithChild(v, t, d).value, s, c)
    ensures Child(WithChild(v, s, c).value, t) == Child(v, t)
    ensures Child(WithChild(v, t, d).value, s) == Child(v, s)
  {
    match v
    case Arr(items) =>
      if t.i == |items| {
        assert (items + [d])[s.i := c] == items[s.i := c] + [d];
      } else {
        assert items[s.i := c][t.i := d] == items[t.i := d][s.i := c];
      }
    case Obj(fields) => assert fields[s.name := c][t.name := d] == fields[t.name := d][s.name := c];
  }

  /** What an edit at `path` writes into the first slot of the path. */
  function NewChild(v: Json, path: Path, edit: Edit): Option<Json>
    requires path != []
  {
    if |path| == 1 then
      match (edit, Child(v, path[0]))
      case (Put(value), _) => Some(value)
      case (AppendText(text), Some(Str(s))) => Some(Str(s + text))
      case _ => None
    else
      match Child(v, path[0])
      case None => None
      case Some(child) => EditAt(child, path[1..], edit)
  }

  lemma EditAtFirst(v: Json, path: Path, edit: Edit)
    requires path != [] && IsLeafEdit(edit)
    ensures EditAt(v, path, edit) ==
            match NewChild(v, path, edit) case None => None case Some(c) => WithChild(v, path[0], c)
  {
  }

  /** A later write to `p` may as well come before a leaf write elsewhere. */
  lemma {:induction false} LeafCommutes(v: Json, p: Path, e: Edit, q: Path, f: Edit)
    requires Ends(v, p) && p != q && p != [] && q != [] && IsLeafEdit(e) && IsLeafEdit(f)
    requires EditAt(v, q, f).Some? && EditAt(EditAt(v, q, f).value, p, e).Some?
    ensures EditAt(v, p, e).Some?
    ensures EditAt(EditAt(v, p, e).value, q, f) == EditAt(EditAt(v, q, f).value, p, e)
    decreases p, 1
  {
    EditAtFirst(v, p, e);
    EditAtFirst(v, q, f);
    var w := EditAt(v, q, f).value;
    EditAtFirst(w, p, e);
    if p[0] != q[0] {
      var c, d := NewChild(w, p, e).value, NewChild(v, q, f).value;
      WithChildCommutes(v, p[0], c, q[0], d);
      EditAtFirst(EditAt(v, p, e).value, q, f);
    } else if |p| > 1 && |q| > 1 {
      LeafCommutesBelow(v, p, e, q, f);
    }
  }

  lemma {:induction false} LeafCommutesBelow(v: Json, p: Path, e: Edit, q: Path, f: Edit)
    requires Ends(v, p) && p != q && |p| > 1 && |q| > 1 && p[0] == q[0] && IsLeafEdit(e) && IsLeafEdit(f)
    requires EditAt(v, q, f).Some? && EditAt(EditAt(v, q, f).value, p, e).Some?
    ensures EditAt(v, p, e).Some?
    ensures EditAt(EditAt(v, p, e).value, q, f) == EditAt(EditAt(v, q, f).value, p, e)
    decreases p, 0
  {
    var child := Child(v, p[0]).value;
    var c := EditAt(child, q[1..], f).value;
    LeafCommutes(child, p[1..], e, q[1..], f);
    var d := EditAt(child, p[1..], e).value;
    WithChildTwice(v, p[0], c, EditAt(c, p[1..], e).value);
    WithChildTwice(v, p[0], d, EditAt(d, q[1..], f).value);
  }

  /** `next` folded into `previous` at the same place; `None` when they do not fold. */
  function Merge(previous: Edit, next: Edit): Option<Edit> {
    match (previous, next)
    case (_, Put(_)) => Some(next)
    case (AppendText(s), AppendText(t)) => Some(AppendText(s + t))
    case (Put(Str(s)), AppendText(t)) => Some(Put(Str(s + t)))
    case _ => None
  }

  lemma {:induction false} MergeMeans(v: Json, path: Path, e: Edit, f: Edit)
    requires path != [] && IsLeafEdit(e) && IsLeafEdit(f) && Merge(e, f).Some?
    requires EditAt(v, path, e).Some? && EditAt(EditAt(v, path, e).value, path, f).Some?
    ensures EditAt(v, path, Merge(e, f).value) == EditAt(EditAt(v, path, e).value, path, f)
  {
    var w := EditAt(v, path, e).value;
    EditAtFirst(v, path, e);
    EditAtFirst(w, path, f);
    EditAtFirst(v, path, Merge(e, f).value);
    var c, d := NewChild(v, path, e).value, NewChild(w, path, f).value;
    WithChildTwice(v, path[0], c, d);
    if |path| > 1 {
      MergeMeans(Child(v, path[0]).value, path[1..], e, f);
    } else if e.AppendText? && f.AppendText? {
      var s := Child(v, path[0]).value.s;
      assert (s + e.text) + f.text == s + (e.text + f.text);
    }
  }

  // ---------------------------------------------------------------- when writes fold

  /** `e` and then `f` can be done at `path`. */
  predicate Admits(v: Json, path: Path, e: Edit, f: Edit) {
    EditAt(v, path, e).Some? && EditAt(EditAt(v, path, e).value, path, f).Some?
  }

  /** Two writes of one leaf fold exactly if there is a value that admits both. */
  lemma MergesIff(path: NonEmptyPath, e: Edit, f: Edit)
    requires IsLeafEdit(e) && IsLeafEdit(f)
    ensures Merge(e, f).Some? <==> exists v :: Admits(v, path, e, f)
  {
    forall v | Admits(v, path, e, f) ensures Merge(e, f).Some? {
      AdmittedMerge(v, path, e, f);
    }
    if Merge(e, f).Some? {
      WayAdmits(path, e, f);
    }
  }

  lemma ChildWritten(v: Json, seg: Seg, c: Json)
    requires WithChild(v, seg, c).Some?
    ensures Child(WithChild(v, seg, c).value, seg) == Some(c)
  {
  }

  lemma {:induction false} AdmittedMerge(v: Json, path: Path, e: Edit, f: Edit)
    requires path != [] && IsLeafEdit(e) && IsLeafEdit(f) && Admits(v, path, e, f)
    ensures Merge(e, f).Some?
  {
    EditAtFirst(v, path, e);
    var c := NewChild(v, path, e).value;
    ChildWritten(v, path[0], c);
    EditAtFirst(EditAt(v, path, e).value, path, f);
    if |path| > 1 {
      AdmittedMerge(Child(v, path[0]).value, path[1..], e, f);
    }
  }

  /** A value with an empty text at the end of `path` */
  function Way(path: Path): Json {
    if path == [] then Str("") else
      match path[0]
      case Name(name) => Obj(map[name := Way(path[1..])])
      case Index(i) => Arr(seq(i + 1, _ => Way(path[1..])))
  }

  lemma {:induction false} WayAdmits(path: Path, e: Edit, f: Edit)
    requires path != [] && IsLeafEdit(e) && IsLeafEdit(f) && Merge(e, f).Some?
    ensures Admits(Way(path), path, e, f)
  {
    var v, below := Way(path), Way(path[1..]);
    assert Child(v, path[0]) == Some(below);
    EditAtFirst(v, path, e);
    if |path| > 1 {
      WayAdmits(path[1..], e, f);
    }
    var c := NewChild(v, path, e).value;
    assert WithChild(v, path[0], c).Some?;
    var w := EditAt(v, path, e).value;
    ChildWritten(v, path[0], c);
    EditAtFirst(w, path, f);
    assert WithChild(w, path[0], NewChild(w, path, f).value).Some?;
  }
}
