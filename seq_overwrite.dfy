/**
 * The overwrite policy for strips left overlapping after a transform:
 * each unselected target on the channel of a transformed strip is deleted
 * (covered completely), split (the transformed strip lies inside it) or
 * trimmed (partial overlap). Deletions wait until every pair is visited.
 */
module SeqOverwrite {
  import opened Wrappers
  import opened SeqModel
  import opened SeqOverlap
  import opened SeqQueries

  /** An identity no strip of the seqbase uses, for the strip a split creates. */
  method FreshId(base: Seqbase) returns (id: StripId)
    ensures id !in base
  {
    id := 0;
    var todo := base.Keys;
    while todo != {}
      invariant todo <= base.Keys
      invariant forall k :: k in base && k !in todo ==> k < id
      decreases |todo|
    {
      var k :| k in todo;
      if k >= id {
        id := k + 1;
      }
      todo := todo - {k};
    }
    assert id in base ==> id < id;
  }

  /**
   * The strips a trim acts on: SEQ_query_by_reference with the effect chain
   * of the target, expanded once more when the target is itself an effect.
   */
  function TrimTargets(h: Host, base: Seqbase, target: StripId): (r: set<StripId>)
    requires target in base
    ensures target in r && r <= base.Keys
  {
    var chain := ExpandEffectChain(h, base, {target});
    if base[target].IsEffect() then ExpandEffectChain(h, base, chain) else chain
  }

  /** Effects fed by inputs are skipped: their length follows their inputs. */
  predicate SkipTrim(h: Host, s: Strip) { s.IsEffect() && h.numInputs(s.kind) > 0 }

  predicate IsSide(k: OverlapKind) { k == LeftSide || k == RightSide }

  /**
   * LEFT_SIDE: the left handle goes to the transformed strip's end;
   * RIGHT_SIDE: the right handle goes to its start.
   */
  function TrimmedPlace(h: Host, s: Strip, transformed: Strip, side: OverlapKind): Placement
    requires IsSide(side)
  {
    if side == LeftSide then h.trimLeft(s, transformed.EndDisp()) else h.trimRight(s, transformed.StartDisp())
  }

  /** The seqbase after trimming the strips of `done` against the transformed strip. */
  function TrimSome(h: Host, base: Seqbase, done: set<StripId>, transformed: Strip, side: OverlapKind): (r: Seqbase)
    requires IsSide(side)
    ensures r.Keys == base.Keys
  {
    map id | id in base ::
      if id in done && !SkipTrim(h, base[id]) then base[id].(place := TrimmedPlace(h, base[id], transformed, side))
      else base[id]
  }

  /** The seqbase after trimming the target's chain against the transformed strip. */
  function Trim(h: Host, base: Seqbase, target: StripId, transformed: Strip, side: OverlapKind): (r: Seqbase)
    requires target in base && IsSide(side)
    ensures r.Keys == base.Keys
  {
    TrimSome(h, base, TrimTargets(h, base, target), transformed, side)
  }

  /**
   * What a trim does: LEFT_SIDE moves the left handle of every strip of the
   * chain to the transformed strip's end, RIGHT_SIDE the right handle to its
   * start; effects fed by inputs and strips outside the chain keep their
   * values, and no flag, type or input changes anywhere.
   */
  lemma TrimSetsHandles(h: Host, base: Seqbase, target: StripId, transformed: Strip, side: OverlapKind)
    requires target in base && IsSide(side)
    ensures var r := Trim(h, base, target, transformed, side);
      && (forall id :: id in base ==> r[id] == base[id].(place := r[id].place))
      && (forall id :: id in TrimTargets(h, base, target) && !SkipTrim(h, base[id]) ==>
            r[id].place == (if side == LeftSide then h.trimLeft(base[id], transformed.EndDisp())
                            else h.trimRight(base[id], transformed.StartDisp())))
      && (forall id :: id in base && (SkipTrim(h, base[id]) || id !in TrimTargets(h, base, target)) ==>
            r[id] == base[id])
  {
  }

  /** Trimming no strip leaves the seqbase as it is. */
  lemma TrimNothing(h: Host, base: Seqbase, transformed: Strip, side: OverlapKind)
    requires IsSide(side)
    ensures TrimSome(h, base, {}, transformed, side) == base
  {
  }

  /** Trimming one more strip of the chain, from the seqbase `cur` trimmed so far. */
  lemma TrimSomeStep(h: Host, base: Seqbase, cur: Seqbase, done: set<StripId>, id: StripId, transformed: Strip, side: OverlapKind)
    requires IsSide(side) && id in base && id !in done
    requires cur == TrimSome(h, base, done, transformed, side)
    ensures id in cur && cur[id] == base[id]
    ensures TrimSome(h, base, done + {id}, transformed, side) ==
      if SkipTrim(h, cur[id]) then cur else Move(cur, id, TrimmedPlace(h, cur[id], transformed, side))
  {
    var a := TrimSome(h, base, done + {id}, transformed, side);
    var b := if SkipTrim(h, base[id]) then cur else Move(cur, id, TrimmedPlace(h, base[id], transformed, side));
    assert a.Keys == b.Keys;
    forall k | k in a
      ensures a[k] == b[k]
    {
    }
  }

  /** seq_transform_handle_overwrite_trim: collects the chain, then trims it. */
  method HandleOverwriteTrim(h: Host, base: Seqbase, target: StripId, transformed: Strip, side: OverlapKind)
    returns (r: Seqbase)
    requires target in base && IsSide(side)
    ensures r == Trim(h, base, target, transformed, side)
  {
    var targets := ExpandEffectChain(h, base, {target});
    if base[target].IsEffect() {
      targets := ExpandEffectChain(h, base, targets);
    }
    r := TrimEach(h, base, targets, transformed, side);
  }

  /** The loop over the chain of seq_transform_handle_overwrite_trim. */
  method TrimEach(h: Host, base: Seqbase, targets: set<StripId>, transformed: Strip, side: OverlapKind)
    returns (r: Seqbase)
    requires IsSide(side) && targets <= base.Keys
    ensures r == TrimSome(h, base, targets, transformed, side)
  {
    r := base;
    TrimNothing(h, base, transformed, side);
    var todo := targets;
    ghost var done: set<StripId> := {};
    while todo != {}
      invariant todo <= targets && done == targets - todo
      invariant r == TrimSome(h, base, done, transformed, side)
      decreases |todo|
    {
      var id :| id in todo;
      TrimSomeStep(h, base, r, done, id, transformed, side);
      todo := todo - {id};
      r := TrimOne(h, r, id, transformed, side);
      done := done + {id};
    }
    assert done == targets;
  }

  /** The loop body: one strip of the chain, skipped when it is an effect fed by inputs. */
  method TrimOne(h: Host, base: Seqbase, id: StripId, transformed: Strip, side: OverlapKind) returns (r: Seqbase)
    requires id in base && IsSide(side)
    ensures r == if SkipTrim(h, base[id]) then base else Move(base, id, TrimmedPlace(h, base[id], transformed, side))
  {
    if base[id].IsEffect() && h.numInputs(base[id].kind) > 0 {
      return base;
    }
    if side == LeftSide {
      r := Move(base, id, h.trimLeft(base[id], transformed.EndDisp()));
    } else {
      r := Move(base, id, h.trimRight(base[id], transformed.StartDisp()));
    }
  }

  /**
   * seq_transform_handle_overwrite_split: the target is split at the
   * transformed strip's start, the right part again at its end, and the
   * middle part removed. The target keeps the left part and a new strip
   * `created`, a copy of the target, holds the right part.
   */
  function SplitAround(h: Host, base: Seqbase, target: StripId, transformed: Strip, created: StripId): (r: Seqbase)
    requires target in base && created !in base
    ensures r.Keys == base.Keys + {created}
    ensures forall id :: id in base && id != target ==> r[id] == base[id]
    ensures r[target] == base[target].(place := r[target].place)
    ensures r[created] == base[target].(place := r[created].place)
  {
    var s := base[target];
    var first := h.splitAt(s, transformed.StartDisp());
    var second := h.splitAt(s.(place := first.1), transformed.EndDisp());
    base[target := s.(place := first.0)][created := s.(place := second.1)]
  }

  /** One visited pair: target, transformed strip, and the identity a split would create. */
  datatype Visit = Visit(target: StripId, transformed: StripId, created: StripId)

  /** The pair calls for a split: same channel and the transformed strip lies inside. */
  predicate NeedsSplit(base: Seqbase, v: Visit)
    requires v.target in base && v.transformed in base
  {
    base[v.transformed].Machine() == base[v.target].Machine() &&
    OverlapDescription(base[v.transformed], base[v.target]) == IsInside
  }

  /** The body of the inner loop of seq_transform_handle_overwrite for one pair. */
  function VisitPair(h: Host, base: Seqbase, del: set<StripId>, v: Visit): (r: (Seqbase, set<StripId>))
    requires v.target in base && v.transformed in base
    requires NeedsSplit(base, v) ==> v.created !in base
    ensures base.Keys <= r.0.Keys
  {
    var tr := base[v.transformed];
    var tg := base[v.target];
    if tr.Machine() != tg.Machine() then (base, del)
    else match OverlapDescription(tr, tg)
      case IsFull => (base, del + {v.target})
      case IsInside => (SplitAround(h, base, v.target, tr, v.created), del)
      case LeftSide => (Trim(h, base, v.target, tr, LeftSide), del)
      case RightSide => (Trim(h, base, v.target, tr, RightSide), del)
      case OverlapNone => (base, del)
  }

  /** Only a target on the transformed strip's channel is acted on. */
  lemma OtherChannelUntouched(h: Host, base: Seqbase, del: set<StripId>, v: Visit)
    requires v.target in base && v.transformed in base
    requires base[v.transformed].Machine() != base[v.target].Machine()
    ensures VisitPair(h, base, del, v) == (base, del)
  {
  }

  /**
   * A target is marked for deletion exactly when it is on the same channel
   * and covered completely; marking leaves the seqbase as it is.
   */
  lemma DeletionOnlyWhenCovered(h: Host, base: Seqbase, del: set<StripId>, v: Visit)
    requires v.target in base && v.transformed in base
    requires NeedsSplit(base, v) ==> v.created !in base
    requires v.target !in del
    ensures var r := VisitPair(h, base, del, v);
      (v.target in r.1 <==>
        base[v.transformed].Machine() == base[v.target].Machine() &&
        OverlapDescription(base[v.transformed], base[v.target]) == IsFull)
      && (v.target in r.1 ==> r.0 == base)
      && r.1 <= del + {v.target}
  {
  }

  /** A new strip appears exactly when the pair calls for a split. */
  lemma NewStripOnlyFromSplit(h: Host, base: Seqbase, del: set<StripId>, v: Visit)
    requires v.target in base && v.transformed in base
    requires NeedsSplit(base, v) ==> v.created !in base
    ensures VisitPair(h, base, del, v).0.Keys == if NeedsSplit(base, v) then base.Keys + {v.created} else base.Keys
  {
  }

  /** The visits can be replayed in order: each one names strips present at that point. */
  ghost predicate ValidVisits(h: Host, base: Seqbase, visits: seq<Visit>)
    decreases |visits|, 0
  {
    visits == [] ||
    (ValidVisits(h, base, visits[..|visits| - 1]) &&
     var cur := Replay(h, base, visits[..|visits| - 1]).0;
     var v := visits[|visits| - 1];
     v.target in cur && v.transformed in cur && (NeedsSplit(cur, v) ==> v.created !in cur))
  }

  /** The seqbase and the deletion set after the visits, in order. */
  ghost function Replay(h: Host, base: Seqbase, visits: seq<Visit>): (r: (Seqbase, set<StripId>))
    requires ValidVisits(h, base, visits)
    ensures base.Keys <= r.0.Keys
    decreases |visits|, 1
  {
    if visits == [] then (base, {})
    else
      var prev := Replay(h, base, visits[..|visits| - 1]);
      VisitPair(h, prev.0, prev.1, visits[|visits| - 1])
  }

  /** Replaying one more visit. */
  lemma ReplayAppend(h: Host, base: Seqbase, visits: seq<Visit>, v: Visit)
    requires ValidVisits(h, base, visits)
    requires v.target in Replay(h, base, visits).0 && v.transformed in Replay(h, base, visits).0
    requires NeedsSplit(Replay(h, base, visits).0, v) ==> v.created !in Replay(h, base, visits).0
    ensures ValidVisits(h, base, visits + [v])
    ensures Replay(h, base, visits + [v]) == VisitPair(h, Replay(h, base, visits).0, Replay(h, base, visits).1, v)
  {
    assert (visits + [v])[..|visits|] == visits;
  }

  /** The (target, transformed) pairs the visits cover. */
  function Pairs(visits: seq<Visit>): (r: set<(StripId, StripId)>)
    ensures forall i :: 0 <= i < |visits| ==> (visits[i].target, visits[i].transformed) in r
    ensures forall p :: p in r ==> exists i :: 0 <= i < |visits| && p == (visits[i].target, visits[i].transformed)
  {
    set i | 0 <= i < |visits| :: (visits[i].target, visits[i].transformed)
  }

  /** One visit only moves strips and adds new ones. */
  lemma VisitPairKeepsStrips(h: Host, base: Seqbase, del: set<StripId>, v: Visit)
    requires v.target in base && v.transformed in base
    requires NeedsSplit(base, v) ==> v.created !in base
    ensures PlaceOnly(base, VisitPair(h, base, del, v).0)
  {
    var tr := base[v.transformed];
    var tg := base[v.target];
    if tr.Machine() == tg.Machine() {
      var k := OverlapDescription(tr, tg);
      if k == LeftSide || k == RightSide {
        TrimSetsHandles(h, base, v.target, tr, k);
      }
    }
  }

  /** Visits only move strips and add new ones: every strip keeps its flags, type and inputs. */
  lemma {:induction false} ReplayKeepsStrips(h: Host, base: Seqbase, visits: seq<Visit>)
    requires ValidVisits(h, base, visits)
    ensures PlaceOnly(base, Replay(h, base, visits).0)
  {
    if visits != [] {
      var pre := visits[..|visits| - 1];
      var v := visits[|visits| - 1];
      ReplayKeepsStrips(h, base, pre);
      var prev := Replay(h, base, pre);
      VisitPairKeepsStrips(h, prev.0, prev.1, v);
      PlaceOnlyTrans(base, prev.0, Replay(h, base, visits).0);
    }
  }

  /** Every strip marked for deletion is the target of some visit. */
  lemma {:induction false} DeletedAreTargets(h: Host, base: Seqbase, visits: seq<Visit>)
    requires ValidVisits(h, base, visits)
    ensures forall id :: id in Replay(h, base, visits).1 ==> exists i :: 0 <= i < |visits| && visits[i].target == id
  {
    if visits != [] {
      var pre := visits[..|visits| - 1];
      DeletedAreTargets(h, base, pre);
      forall id | id in Replay(h, base, visits).1
        ensures exists i :: 0 <= i < |visits| && visits[i].target == id
      {
        if id in Replay(h, base, pre).1 {
          var i :| 0 <= i < |pre| && pre[i].target == id;
          assert visits[i].target == id;
        } else {
          assert visits[|visits| - 1].target == id;
        }
      }
    }
  }

  /** SEQ_edit_remove_flagged_sequences after flagging the deletion set. */
  function RemoveStrips(base: Seqbase, del: set<StripId>): (r: Seqbase)
    ensures r.Keys == base.Keys - del
    ensures forall id :: id in r ==> r[id] == base[id]
  {
    map id | id in base && id !in del :: base[id]
  }

  /** The targets query_overwrite_targets returns. */
  function OverwriteTargets(h: Host, base: Seqbase, transformed: set<StripId>): (r: set<StripId>)
    requires transformed <= base.Keys
    ensures r * transformed == {}
  {
    set id | id in base && !base[id].Selected() && id !in transformed && OverlapsSome(h, base, id, transformed)
  }

  /**
   * The body of the inner loop for one pair: compares channels, classifies
   * the overlap, then marks, splits or trims.
   */
  method OverwritePair(h: Host, base: Seqbase, del: set<StripId>, tg: StripId, tr: StripId)
    returns (r: Seqbase, rdel: set<StripId>, ghost v: Visit)
    requires tg in base && tr in base
    ensures v.target == tg && v.transformed == tr
    ensures NeedsSplit(base, v) ==> v.created !in base
    ensures (r, rdel) == VisitPair(h, base, del, v)
  {
    var created := tg;
    r, rdel := base, del;
    if base[tr].Machine() == base[tg].Machine() {
      var overlap := OverlapDescription(base[tr], base[tg]);
      if overlap == IsFull {
        rdel := del + {tg};
      } else if overlap == IsInside {
        created := FreshId(base);
        r := SplitAround(h, base, tg, base[tr], created);
      } else if overlap == LeftSide || overlap == RightSide {
        r := HandleOverwriteTrim(h, base, tg, base[tr], overlap);
      }
    }
    v := Visit(tg, tr, created);
  }

  /** Recording one more visit adds its pair. */
  lemma PairsAppend(visits: seq<Visit>, v: Visit)
    ensures Pairs(visits + [v]) == Pairs(visits) + {(v.target, v.transformed)}
  {
    var vs := visits + [v];
    assert vs[|visits|] == v;
    forall p | p in Pairs(visits)
      ensures p in Pairs(vs)
    {
      var i :| 0 <= i < |visits| && p == (visits[i].target, visits[i].transformed);
      assert vs[i] == visits[i];
    }
  }

  /** The pairs of one target with each strip of `s`. */
  function Row(tg: StripId, s: set<StripId>): (r: set<(StripId, StripId)>)
    ensures forall p :: p in r <==> p.0 == tg && p.1 in s
  {
    set tr | tr in s :: (tg, tr)
  }

  /** One more strip adds one pair to the row. */
  lemma RowAdd(tg: StripId, s: set<StripId>, x: StripId)
    ensures Row(tg, s + {x}) == Row(tg, s) + {(tg, x)}
  {
  }

  /** Visiting (tg, tr) extends the row of tg covered so far. */
  lemma RowStep(visits0: seq<Visit>, visits: seq<Visit>, v: Visit, done: set<StripId>)
    requires Pairs(visits) == Pairs(visits0) + Row(v.target, done)
    ensures Pairs(visits + [v]) == Pairs(visits0) + Row(v.target, done + {v.transformed})
  {
    PairsAppend(visits, v);
    RowAdd(v.target, done, v.transformed);
  }

  /** The pairs of each target of `a` with each strip of `b`. */
  function Grid(a: set<StripId>, b: set<StripId>): (r: set<(StripId, StripId)>)
    ensures forall p :: p in r <==> p.0 in a && p.1 in b
  {
    set tg, tr | tg in a && tr in b :: (tg, tr)
  }

  /** One more target adds its row to the grid. */
  lemma GridStep(a: set<StripId>, b: set<StripId>, tg: StripId)
    ensures Grid(a + {tg}, b) == Grid(a, b) + Row(tg, b)
  {
  }

  /** One pass of the inner loop: visits (tg, tr) and records the visit. */
  method VisitStep(h: Host, base: Seqbase, ghost visits0: seq<Visit>, ghost visits: seq<Visit>,
                   cur: Seqbase, del: set<StripId>, tg: StripId, tr: StripId, ghost done: set<StripId>)
    returns (cur': Seqbase, del': set<StripId>, ghost visits': seq<Visit>)
    requires ValidVisits(h, base, visits) && (cur, del) == Replay(h, base, visits)
    requires Pairs(visits) == Pairs(visits0) + Row(tg, done)
    requires tg in base && tr in base
    ensures ValidVisits(h, base, visits') && (cur', del') == Replay(h, base, visits')
    ensures Pairs(visits') == Pairs(visits0) + Row(tg, done + {tr})
  {
    ghost var v;
    cur', del', v := OverwritePair(h, cur, del, tg, tr);
    ReplayAppend(h, base, visits, v);
    RowStep(visits0, visits, v, done);
    visits' := visits + [v];
  }

  /** The inner loop: the target against every transformed strip. */
  method VisitTarget(h: Host, base: Seqbase, ghost visits0: seq<Visit>, cur0: Seqbase, del0: set<StripId>,
                     tg: StripId, transformed: set<StripId>)
    returns (cur: Seqbase, del: set<StripId>, ghost visits: seq<Visit>)
    requires ValidVisits(h, base, visits0) && (cur0, del0) == Replay(h, base, visits0)
    requires tg in base && transformed <= base.Keys
    ensures ValidVisits(h, base, visits) && (cur, del) == Replay(h, base, visits)
    ensures Pairs(visits) == Pairs(visits0) + Row(tg, transformed)
  {
    cur, del, visits := cur0, del0, visits0;
    var inner := transformed;
    ghost var done: set<StripId> := {};
    while inner != {}
      invariant inner <= transformed
      invariant forall x :: x in done <==> x in transformed && x !in inner
      invariant ValidVisits(h, base, visits) && (cur, del) == Replay(h, base, visits)
      invariant Pairs(visits) == Pairs(visits0) + Row(tg, done)
      decreases |inner|
    {
      var tr :| tr in inner;
      cur, del, visits := VisitStep(h, base, visits0, visits, cur, del, tg, tr, done);
      inner := inner - {tr};
      done := done + {tr};
    }
    assert done == transformed;
  }

  /** The outer loop of seq_transform_handle_overwrite: every target against every transformed strip. */
  method VisitAll(h: Host, base: Seqbase, targets: set<StripId>, transformed: set<StripId>)
    returns (cur: Seqbase, del: set<StripId>, ghost visits: seq<Visit>)
    requires targets <= base.Keys && transformed <= base.Keys
    ensures ValidVisits(h, base, visits) && (cur, del) == Replay(h, base, visits)
    ensures Pairs(visits) == Grid(targets, transformed)
  {
    cur, del, visits := base, {}, [];
    var outer := targets;
    while outer != {}
      invariant outer <= targets
      invariant ValidVisits(h, base, visits) && (cur, del) == Replay(h, base, visits)
      invariant Pairs(visits) == Grid(targets - outer, transformed)
      decreases |outer|
    {
      var tg :| tg in outer;
      cur, del, visits := VisitTarget(h, base, visits, cur, del, tg, transformed);
      GridStep(targets - outer, transformed, tg);
      assert targets - (outer - {tg}) == (targets - outer) + {tg};
      outer := outer - {tg};
    }
    assert targets - outer == targets;
  }

  /**
   * seq_transform_handle_overwrite: every (target, transformed) pair is
   * visited, in the order `visits` records; then the covered
   * targets are removed. Transformed strips are never removed.
   */
  method HandleOverwrite(h: Host, base: Seqbase, transformed: set<StripId>)
    returns (r: Seqbase, ghost visits: seq<Visit>)
    requires transformed <= base.Keys
    ensures ValidVisits(h, base, visits)
    ensures Pairs(visits) == Grid(OverwriteTargets(h, base, transformed), transformed)
    ensures r == RemoveStrips(Replay(h, base, visits).0, Replay(h, base, visits).1)
    ensures transformed <= r.Keys && PlaceOnly(base, r)
  {
    var targets := QueryOverwriteTargets(h, base, transformed);
    assert targets == OverwriteTargets(h, base, transformed);
    var cur, del;
    cur, del, visits := VisitAll(h, base, targets, transformed);
    r := RemoveStrips(cur, del);
    DeletedAreTargets(h, base, visits);
    ReplayKeepsStrips(h, base, visits);
  }
}
