/**
 * `PendingOps`: a queue of operations between a source and its consumer, kept short by merging.
 *
 * What is handed over replays to the same value as everything received, for every value the received operations
 * apply to; or it is `Replaced`, after too many operations.
 */
module Pending {
  import opened Delta

  const MAX_PENDING_OPS: nat := 10_000

  datatype Take = Ops(ops: seq<Op>) | Replaced

  datatype State =
    | Empty
    /** One batch, as it was received. */
    | Batch(ops: seq<Op>)
    /** `leaves` says where in `ops` the newest leaf operation of a path is. */
    | Folding(ops: seq<Op>, leaves: map<Path, nat>)
    | Overflowed

  /** Wherever `received` applies, `ops` gives the same value. */
  ghost predicate Means(received: seq<Op>, ops: seq<Op>) {
    forall v: Json | Run(v, received).Some? :: Run(v, ops) == Run(v, received)
  }

  /** `ops[at]` writes the leaf at `path`, and only other leaves are written after it. */
  ghost predicate Latest(ops: seq<Op>, at: nat, path: Path) {
    && at < |ops| && IsLeaf(ops[at]) && ops[at].path == path
    && forall j | at < j < |ops| :: IsLeaf(ops[j]) && ops[j].path != path
  }

  /** `leaves` says where the latest write of each leaf is. */
  ghost predicate Indexed(ops: seq<Op>, leaves: map<Path, nat>) {
    && (forall p | p in leaves :: Latest(ops, leaves[p], p))
    && forall p: Path, at: nat | Latest(ops, at, p) :: p in leaves
  }

  // ---------------------------------------------------------------- folding

  /** `op` may go into `ops[at]`. */
  ghost predicate Folds(ops: seq<Op>, at: nat, op: Op) {
    IsLeaf(op) && Latest(ops, at, op.path) && Merge(ops[at].edit, op.edit).Some?
  }

  /** What waits when `op` comes after `ops` */
  ghost function Followed(ops: seq<Op>, op: Op): seq<Op> {
    if op.Replace? then [op]
    else if exists at: nat :: Folds(ops, at, op) then
      var at: nat :| Folds(ops, at, op);
      ops[at := Write(op.path, Merge(ops[at].edit, op.edit).value)]
    else ops + [op]
  }

  ghost function Folded(ops: seq<Op>, more: seq<Op>): seq<Op> {
    if more == [] then ops else Followed(Folded(ops, more[..|more| - 1]), more[|more| - 1])
  }

  /** At no time more than the limit wait. */
  ghost predicate Fits(ops: seq<Op>, more: seq<Op>) {
    forall i | 0 <= i <= |more| :: |Folded(ops, more[..i])| <= MAX_PENDING_OPS
  }

  /**
   * With only writes of other leaves between them, two writes of one leaf become one exactly if some value admits
   * both.
   */
  lemma FollowedMerges(ops: seq<Op>, at: nat, op: Op)
    requires at < |ops| && IsLeaf(ops[at]) && IsLeaf(op) && ops[at].path == op.path
    requires forall j | at < j < |ops| :: IsLeaf(ops[j]) && ops[j].path != op.path
    ensures var e, f := ops[at].edit, op.edit;
            if exists v :: Admits(v, op.path, e, f) then
              Merge(e, f).Some? && Followed(ops, op) == ops[at := Write(op.path, Merge(e, f).value)]
            else Followed(ops, op) == ops + [op]
  {
    hide Merge, Admits;
    MergesIff(op.path, ops[at].edit, op.edit);
    assert forall k: nat | Latest(ops, k, op.path) :: k == at;
    assert Latest(ops, at, op.path);
    assert Folds(ops, at, op) <==> Merge(ops[at].edit, op.edit).Some?;
  }

  /** A replacement drops everything, and any other operation waits at the end. */
  lemma FollowedWaits(ops: seq<Op>, op: Op)
    ensures op.Replace? ==> Followed(ops, op) == [op]
    ensures !op.Replace? && !IsLeaf(op) ==> Followed(ops, op) == ops + [op]
    ensures IsLeaf(op) && (forall at | 0 <= at < |ops| && IsLeaf(ops[at]) && ops[at].path == op.path ::
                             exists j :: at < j < |ops| && !IsLeaf(ops[j])) ==>
              Followed(ops, op) == ops + [op]
  {
  }

  lemma FollowedIndexed(ops: seq<Op>, leaves: map<Path, nat>, op: Op)
    requires IsLeaf(op) && Indexed(ops, leaves)
    ensures if op.path in leaves && Merge(ops[leaves[op.path]].edit, op.edit).Some? then
              var merged := Merge(ops[leaves[op.path]].edit, op.edit).value;
              var folded := ops[leaves[op.path] := Write(op.path, merged)];
              Followed(ops, op) == folded && Indexed(folded, leaves)
            else Followed(ops, op) == ops + [op] && Indexed(ops + [op], leaves[op.path := |ops|])
  {
    if op.path in leaves && Merge(ops[leaves[op.path]].edit, op.edit).Some? {
      var at := leaves[op.path];
      assert forall k: nat | Latest(ops, k, op.path) :: k == at;
      assert Folds(ops, at, op);
      MergedLeaf(ops[at].edit, op.edit);
      IndexedMerged(ops, leaves, at, op.path, Merge(ops[at].edit, op.edit).value);
    } else {
      assert forall k: nat | Latest(ops, k, op.path) :: op.path in leaves && k == leaves[op.path];
      IndexedMore(ops, leaves, op);
    }
  }

  lemma IndexedMerged(ops: seq<Op>, leaves: map<Path, nat>, at: nat, path: NonEmptyPath, merged: Edit)
    requires Indexed(ops, leaves) && at < |ops| && IsLeaf(ops[at]) && ops[at].path == path && IsLeafEdit(merged)
    ensures Indexed(ops[at := Write(path, merged)], leaves)
  {
    var folded := ops[at := Write(path, merged)];
    forall k: nat, p: Path ensures Latest(folded, k, p) <==> Latest(ops, k, p) {
      assert forall j | 0 <= j < |ops| ::
          IsLeaf(folded[j]) == IsLeaf(ops[j]) && (IsLeaf(ops[j]) ==> folded[j].path == ops[j].path);
    }
  }

  lemma IndexedMore(ops: seq<Op>, leaves: map<Path, nat>, op: Op)
    requires Indexed(ops, leaves) && IsLeaf(op)
    ensures Indexed(ops + [op], leaves[op.path := |ops|])
  {
    var more := ops + [op];
    forall p: Path, at: nat | Latest(more, at, p) ensures p in leaves[op.path := |ops|] {
      if at < |ops| {
        assert forall j | 0 <= j < |ops| :: more[j] == ops[j];
        assert Latest(ops, at, p);
      }
    }
    forall p | p in leaves && p != op.path ensures Latest(more, leaves[p], p) {
      assert Latest(ops, leaves[p], p);
    }
  }

  lemma NothingIndexed(ops: seq<Op>)
    requires ops == [] || !IsLeaf(ops[|ops| - 1])
    ensures Indexed(ops, map[])
  {
  }

  lemma MergedLeaf(e: Edit, f: Edit)
    requires IsLeafEdit(e) && IsLeafEdit(f) && Merge(e, f).Some?
    ensures IsLeafEdit(Merge(e, f).value)
  {
  }

  /** A leaf write moves before leaf writes on other paths. */
  lemma {:induction false} MoveFirst(v: Json, others: seq<Op>, next: Op)
    requires IsLeaf(next) && Ends(v, next.path)
    requires forall j | 0 <= j < |others| :: IsLeaf(others[j]) && others[j].path != next.path
    requires Run(v, others + [next]).Some?
    ensures Run(v, [next] + others) == Run(v, others + [next])
    decreases others
  {
    if others == [] {
      assert [next] + others == others + [next];
    } else {
      var first, rest := others[0], others[1..];
      assert (others + [next])[1..] == rest + [next];
      var w := Apply(v, first).value;
      EndsPersists(v, next.path, first.path, first.edit);
      MoveFirst(w, rest, next);
      assert ([next] + rest)[1..] == rest;
      LeafCommutes(v, next.path, next.edit, first.path, first.edit);
      assert ([next] + others)[1..] == others;
    }
  }

  /** Merging a leaf write into the last one on its path changes nothing. */
  lemma MergeKeepsMeaning(v: Json, ops: seq<Op>, at: nat, next: Op)
    requires at < |ops| && IsLeaf(ops[at]) && IsLeaf(next) && ops[at].path == next.path
    requires forall j | at < j < |ops| :: IsLeaf(ops[j]) && ops[j].path != next.path
    requires Merge(ops[at].edit, next.edit).Some?
    requires Run(v, ops + [next]).Some?
    ensures Run(v, ops[at := Write(next.path, Merge(ops[at].edit, next.edit).value)]) == Run(v, ops + [next])
  {
    var before, after := ops[..at], ops[at + 1..];
    var merged := Write(next.path, Merge(ops[at].edit, next.edit).value);
    assert ops + [next] == before + ([ops[at]] + (after + [next]));
    assert ops[at := merged] == before + ([merged] + after);
    RunConcat(v, before, [ops[at]] + (after + [next]));
    RunConcat(v, before, [merged] + after);
    var u := Run(v, before).value;
    RunFirst(u, ops[at], after + [next]);
    RunFirst(u, merged, after);
    var w := Apply(u, ops[at]).value;
    LeafEnds(u, next.path, ops[at].edit);
    MoveFirst(w, after, next);
    RunFirst(w, next, after);
    MergeMeans(u, next.path, ops[at].edit, next.edit);
  }

  lemma RunFirst(v: Json, op: Op, rest: seq<Op>)
    ensures Run(v, [op] + rest) == match Apply(v, op) case None => None case Some(w) => Run(w, rest)
  {
    assert ([op] + rest)[1..] == rest;
  }

  /** A replacement makes everything before it irrelevant. */
  lemma MeansReplaced(received: seq<Op>, value: Json, rest: seq<Op>)
    ensures Means(received + ([Replace(value)] + rest), [Replace(value)] + rest)
  {
    forall v: Json | Run(v, received + ([Replace(value)] + rest)).Some?
      ensures Run(v, [Replace(value)] + rest) == Run(v, received + ([Replace(value)] + rest))
    {
      RunConcat(v, received, [Replace(value)] + rest);
      RunFirst(v, Replace(value), rest);
      RunFirst(Run(v, received).value, Replace(value), rest);
    }
  }

  lemma MeansMore(received: seq<Op>, ops: seq<Op>, more: seq<Op>)
    requires Means(received, ops)
    ensures Means(received + more, ops + more)
  {
    forall v: Json | Run(v, received + more).Some? ensures Run(v, ops + more) == Run(v, received + more) {
      RunConcat(v, received, more);
      RunConcat(v, ops, more);
    }
  }

  lemma MeansMerged(received: seq<Op>, ops: seq<Op>, at: nat, next: Op)
    requires Means(received, ops)
    requires at < |ops| && IsLeaf(ops[at]) && IsLeaf(next) && ops[at].path == next.path
    requires forall j | at < j < |ops| :: IsLeaf(ops[j]) && ops[j].path != next.path
    requires Merge(ops[at].edit, next.edit).Some?
    ensures Means(received + [next], ops[at := Write(next.path, Merge(ops[at].edit, next.edit).value)])
  {
    MeansMore(received, ops, [next]);
    forall v: Json | Run(v, received + [next]).Some?
      ensures Run(v, ops[at := Write(next.path, Merge(ops[at].edit, next.edit).value)]) == Run(v, received + [next])
    {
      MergeKeepsMeaning(v, ops, at, next);
    }
  }

  class PendingOps {
    var state: State
    /** Every operation queued since the last `Take`. */
    ghost var received: seq<Op>

    ghost predicate Valid()
      reads this
    {
      match state
      case Empty => received == []
      case Batch(ops) => ops != [] && Means(received, ops)
      case Folding(ops, leaves) => |ops| <= MAX_PENDING_OPS && Means(received, ops) && Indexed(ops, leaves)
      case Overflowed => true
    }

    constructor ()
      ensures Valid() && received == [] && state == Empty
    {
      state, received := Empty, [];
    }

    /** `ops` were folded into `before`, or that was too much. */
    ghost predicate FoldedInto(before: seq<Op>, ops: seq<Op>)
      reads this
    {
      if Fits(before, ops) then state.Folding? && state.ops == Folded(before, ops) else state == Overflowed
    }

    /** Queue the operations of one commit. */
    method Push(ops: seq<Op>)
      requires Valid()
      modifies this
      ensures Valid() && received == old(received) + ops
      ensures ops == [] ==> state == old(state)
      ensures ops != [] && (ops[0].Replace? || old(state).Empty?) ==> state == Batch(ops)
      ensures ops != [] && !ops[0].Replace? ==>
                && (old(state).Overflowed? ==> state == Overflowed)
                && (old(state).Folding? ==> FoldedInto(old(state).ops, ops))
                && (old(state).Batch? ==>
                      if Fits([], old(state).ops) then FoldedInto(Folded([], old(state).ops), ops)
                      else state == Overflowed)
    {
      hide Means, Indexed, Folded;
      received := received + ops;
      if |ops| == 0 {
        assert received == old(received);
        return;
      }
      if ops[0].Replace? {
        state := Batch(ops);
        assert ops == [ops[0]] + ops[1..];
        MeansReplaced(old(received), ops[0].value, ops[1..]);
        return;
      }
      match state {
        case Empty =>
          assert received == ops;
          MeansItself(ops);
          state := Batch(ops);
        case Batch(first) =>
          state := Folding([], map[]);
          MeansItself([]);
          NothingIndexed([]);
          var ok := Fold(first, []);
          if ok {
            assert [] + first == first;
            FirstMeant(old(received), first, state.ops);
            ok := Fold(ops, old(received));
          }
        case Folding(_, _) =>
          var ok := Fold(ops, old(received));
        case Overflowed =>
      }
    }

    /** The consumer takes what waits. */
    method Take() returns (batch: Take)
      requires Valid()
      modifies this
      ensures Valid() && received == [] && state == Empty
      ensures old(state) == Empty ==> batch == Ops([])
      ensures batch.Replaced? <==> old(state) == Overflowed
      ensures old(state).Batch? || old(state).Folding? ==> batch == Ops(old(state).ops)
      ensures batch.Ops? ==> Means(old(received), batch.ops)
    {
      match state {
        case Empty => batch := Ops([]);
        case Batch(ops) => batch := Ops(ops);
        case Folding(ops, _) => batch := Ops(ops);
        case Overflowed => batch := Replaced;
      }
      state, received := Empty, [];
    }

    /** Fold `ops` into the queue, which means `before`; false once it overflowed. */
    method Fold(ops: seq<Op>, ghost before: seq<Op>) returns (ok: bool)
      requires state.Folding? && |state.ops| <= MAX_PENDING_OPS
      requires Means(before, state.ops) && Indexed(state.ops, state.leaves)
      modifies this`state
      ensures ok <==> forall i | 0 <= i <= |ops| :: |Folded(old(state.ops), ops[..i])| <= 10_000
      ensures !ok ==> state == Overflowed
      ensures ok ==> state.Folding? && state.ops == Folded(old(state.ops), ops) && |state.ops| <= MAX_PENDING_OPS
      ensures ok ==> Means(before + ops, state.ops) && Indexed(state.ops, state.leaves)
    {
      hide Followed, Merge, Means, Indexed;
      ghost var start := state.ops;
      assert before + ops[..0] == before;
      for i := 0 to |ops|
        invariant state.Folding? && state.ops == Folded(start, ops[..i])
        invariant forall j | 0 <= j <= i :: |Folded(start, ops[..j])| <= MAX_PENDING_OPS
        invariant Means(before + ops[..i], state.ops) && Indexed(state.ops, state.leaves)
      {
        assert ops[..i + 1][..i] == ops[..i] && before + ops[..i + 1] == before + ops[..i] + [ops[i]];
        ok := FoldOne(ops[i], before + ops[..i]);
        if !ok {
          return;
        }
      }
      assert ops[..|ops|] == ops;
      return true;
    }

    /** One operation of `Fold` */
    method FoldOne(op: Op, ghost before: seq<Op>) returns (ok: bool)
      requires state.Folding? && |state.ops| <= MAX_PENDING_OPS
      requires Means(before, state.ops) && Indexed(state.ops, state.leaves)
      modifies this`state
      ensures ok <==> |Followed(old(state.ops), op)| <= MAX_PENDING_OPS
      ensures !ok ==> state == Overflowed
      ensures ok ==> state.Folding? && state.ops == Followed(old(state.ops), op)
      ensures ok ==> Means(before + [op], state.ops) && Indexed(state.ops, state.leaves)
    {
      hide Merge, Means, Indexed, Followed;
      var folded, leaves := state.ops, state.leaves;
      FollowedWaits(folded, op);
      if op.Replace? {
        MeansReplaced(before, op.value, []);
        assert [op] + [] == [op];
        folded, leaves := [], map[];
        NothingIndexed([op]);
      } else if IsLeaf(op) {
        FollowedIndexed(folded, leaves, op);
        if op.path in leaves {
          LeavesLatest(folded, leaves, op.path);
          var at := leaves[op.path];
          var merged := Merge(folded[at].edit, op.edit);
          if merged.Some? {
            MeansMerged(before, folded, at, op);
            state := Folding(folded[at := Write(op.path, merged.value)], leaves);
            return true;
          }
        }
        MeansMore(before, folded, [op]);
        leaves := leaves[op.path := |folded|];
      } else {
        MeansMore(before, folded, [op]);
        NothingIndexed(folded + [op]);
        leaves := map[];
      }
      state := Folding(folded + [op], leaves);
      if |folded| + 1 > MAX_PENDING_OPS {
        state := Overflowed;
        return false;
      }
      return true;
    }
  }

  lemma LeavesLatest(ops: seq<Op>, leaves: map<Path, nat>, p: Path)
    requires Indexed(ops, leaves) && p in leaves
    ensures leaves[p] < |ops| && IsLeaf(ops[leaves[p]]) && ops[leaves[p]].path == p
    ensures forall j | leaves[p] < j < |ops| :: IsLeaf(ops[j]) && ops[j].path != p
  {
  }

  lemma FirstMeant(received: seq<Op>, first: seq<Op>, folded: seq<Op>)
    requires Means(received, first) && Means(first, folded)
    ensures Means(received, folded)
  {
  }

  lemma MeansItself(ops: seq<Op>)
    ensures Means(ops, ops)
  {
  }
}
