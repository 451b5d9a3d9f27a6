/**
 * What happens to the seqbase when a sequencer transform ends: overlap
 * resolution by the chosen policy, effect timing updates, the final
 * shuffle of strips still overlapping, and the cancel path.
 *
 * Loops over a collection visit its strips in hash-set order, and some of
 * the library calls they make read the placements left by the previous
 * ones. Such loops return, as a ghost value, the order they used, and are
 * specified by a fold over that order.
 */
module SeqResolve {
  import opened Wrappers
  import opened SeqModel
  import opened SeqOverlap
  import opened SeqQueries
  import opened SeqTransData
  import opened SeqOverwrite

  /** The per-strip body of the three order-sensitive loops. */
  datatype StepKind =
    | EffectUpdate   // SEQ_time_update_sequence
    | ShuffleClear   // shuffle when overlapping, then clear SEQ_OVERLAP
    | CancelRestore  // shuffle when overlapping, then SEQ_time_update_sequence

  /** The flag a step leaves on its strip. */
  function FlagAfter(kind: StepKind, f: Flags): Flags
  {
    if kind == ShuffleClear then f - {SEQ_OVERLAP} else f
  }

  /** One strip's step, reading the placements of the seqbase as it stands. */
  function Step(h: Host, kind: StepKind, base: Seqbase, id: StripId): (r: Seqbase)
    requires id in base
    ensures r.Keys == base.Keys
    ensures forall k :: k in base && k != id ==> r[k] == base[k]
    ensures r[id] == base[id].(place := r[id].place, flag := FlagAfter(kind, base[id].flag))
  {
    match kind
    case EffectUpdate => Move(base, id, h.timeUpdate(Places(base), id))
    case ShuffleClear =>
      var moved := if h.testOverlap(Places(base), id) then Move(base, id, h.shuffle(Places(base), id)) else base;
      SetFlag(moved, id, moved[id].flag - {SEQ_OVERLAP})
    case CancelRestore =>
      var moved := if h.testOverlap(Places(base), id) then Move(base, id, h.shuffle(Places(base), id)) else base;
      Move(moved, id, h.timeUpdate(Places(moved), id))
  }

  predicate Distinct(order: seq<StripId>)
  {
    forall i, j :: 0 <= i < j < |order| ==> order[i] != order[j]
  }

  lemma DistinctAppend(order: seq<StripId>, id: StripId)
    requires Distinct(order) && id !in order
    ensures Distinct(order + [id])
  {
    var o := order + [id];
    forall i, j | 0 <= i < j < |o|
      ensures o[i] != o[j]
    {
      if j == |order| {
        assert o[i] == order[i];
      } else {
        assert o[i] == order[i] && o[j] == order[j];
      }
    }
  }

  /** The steps applied to the strips of `order`, first to last. */
  function Fold(h: Host, kind: StepKind, base: Seqbase, order: seq<StripId>): (r: Seqbase)
    requires ListedIn(order, base)
    ensures r.Keys == base.Keys
  {
    if order == [] then base
    else Step(h, kind, Fold(h, kind, base, order[..|order| - 1]), order[|order| - 1])
  }

  /** Applying a step's flag change twice is applying it once. */
  lemma FlagAfterTwice(kind: StepKind, f: Flags)
    ensures FlagAfter(kind, FlagAfter(kind, f)) == FlagAfter(kind, f)
  {
  }

  /** The strip `a` is `b` up to placement and flag. */
  predicate SameButPlaceAndFlag(a: Strip, b: Strip)
  {
    a == b.(place := a.place, flag := a.flag)
  }

  /**
   * What a fold does to one strip: nothing when the strip is not in the
   * order, otherwise placement and, for ShuffleClear, the SEQ_OVERLAP bit.
   */
  lemma {:induction false} FoldAt(h: Host, kind: StepKind, base: Seqbase, order: seq<StripId>, id: StripId)
    requires ListedIn(order, base) && id in base
    ensures id !in order ==> Fold(h, kind, base, order)[id] == base[id]
    ensures id in order ==>
      SameButPlaceAndFlag(Fold(h, kind, base, order)[id], base[id]) &&
      Fold(h, kind, base, order)[id].flag == FlagAfter(kind, base[id].flag)
  {
    if order != [] {
      var pre := order[..|order| - 1];
      var last := order[|order| - 1];
      assert order == pre + [last];
      FoldAt(h, kind, base, pre, id);
      if id == last && id in pre {
        FlagAfterTwice(kind, base[id].flag);
      }
    }
  }

  /**
   * A fold changes the strips of its order only, and them only in
   * placement and, for ShuffleClear, in the SEQ_OVERLAP bit.
   */
  lemma FoldChanges(h: Host, kind: StepKind, base: Seqbase, order: seq<StripId>)
    requires ListedIn(order, base)
    ensures forall id :: id in base && id !in order ==> Fold(h, kind, base, order)[id] == base[id]
    ensures forall id :: id in order ==>
      SameButPlaceAndFlag(Fold(h, kind, base, order)[id], base[id]) &&
      Fold(h, kind, base, order)[id].flag == FlagAfter(kind, base[id].flag)
  {
    forall id | id in base
      ensures id !in order ==> Fold(h, kind, base, order)[id] == base[id]
      ensures id in order ==>
        SameButPlaceAndFlag(Fold(h, kind, base, order)[id], base[id]) &&
        Fold(h, kind, base, order)[id].flag == FlagAfter(kind, base[id].flag)
    {
      FoldAt(h, kind, base, order, id);
    }
  }

  /** A strip keeps all but its placement and flag through a fold. */
  lemma FoldKeepsStrip(h: Host, kind: StepKind, base: Seqbase, order: seq<StripId>, id: StripId)
    requires ListedIn(order, base) && id in base
    ensures SameButPlaceAndFlag(Fold(h, kind, base, order)[id], base[id])
  {
    FoldAt(h, kind, base, order, id);
  }

  /** Appending one strip to the order applies its step last. */
  lemma FoldAppend(h: Host, kind: StepKind, base: Seqbase, order: seq<StripId>, id: StripId)
    requires ListedIn(order, base) && id in base
    ensures ListedIn(order + [id], base)
    ensures Fold(h, kind, base, order + [id]) == Step(h, kind, Fold(h, kind, base, order), id)
  {
    assert (order + [id])[..|order|] == order;
  }

  /** Strips seq_transform_update_effects retimes: effects with an input. */
  predicate NeedsEffectUpdate(s: Strip) { s.IsEffect() && s.HasInputs() }

  /** One visit of StepEach: applies the step to `id` unless the filter skips it. */
  method StepOne(h: Host, kind: StepKind, base: Seqbase, cur: Seqbase, ghost order: seq<StripId>, id: StripId, filtered: bool)
    returns (r: Seqbase, ghost order': seq<StripId>)
    requires ListedIn(order, base) && Distinct(order) && id in base && id !in order
    requires cur == Fold(h, kind, base, order)
    ensures ListedIn(order', base) && Distinct(order')
    ensures order' == if !filtered || NeedsEffectUpdate(base[id]) then order + [id] else order
    ensures r == Fold(h, kind, base, order')
  {
    FoldKeepsStrip(h, kind, base, order, id);
    if filtered && !(cur[id].IsEffect() && (cur[id].seq1.Some? || cur[id].seq2.Some? || cur[id].seq3.Some?)) {
      return cur, order;
    }
    FoldAppend(h, kind, base, order, id);
    DistinctAppend(order, id);
    r := Step(h, kind, cur, id);
    order' := order + [id];
  }

  /**
   * The loop shape shared by the three order-sensitive loops: visits every
   * strip of `c` once, applying the step to those `filtered` selects.
   */
  method StepEach(h: Host, kind: StepKind, base: Seqbase, c: set<StripId>, filtered: bool)
    returns (r: Seqbase, ghost order: seq<StripId>)
    requires c <= base.Keys
    ensures ListedIn(order, base) && Distinct(order)
    ensures forall id :: id in order <==> id in c && (!filtered || NeedsEffectUpdate(base[id]))
    ensures r == Fold(h, kind, base, order)
  {
    r := base;
    order := [];
    var todo := c;
    while todo != {}
      invariant todo <= c
      invariant ListedIn(order, base) && Distinct(order)
      invariant forall id :: id in order <==> id in c && id !in todo && (!filtered || NeedsEffectUpdate(base[id]))
      invariant r == Fold(h, kind, base, order)
      decreases |todo|
    {
      var id :| id in todo;
      todo := todo - {id};
      r, order := StepOne(h, kind, base, r, order, id, filtered);
    }
  }

  /** seq_transform_update_effects: retimes each effect with an input of the collection. */
  method UpdateEffects(h: Host, base: Seqbase, c: set<StripId>) returns (r: Seqbase, ghost order: seq<StripId>)
    requires c <= base.Keys
    ensures ListedIn(order, base) && Distinct(order)
    ensures forall id :: id in order <==> id in c && NeedsEffectUpdate(base[id])
    ensures r == Fold(h, EffectUpdate, base, order)
  {
    r, order := StepEach(h, EffectUpdate, base, c, true);
  }

  /** SEQ_transform_seqbase_shuffle_time: the library moves the strips of the collection. */
  function ShuffleTime(h: Host, base: Seqbase, c: set<StripId>): (r: Seqbase)
    ensures r.Keys == base.Keys && PlaceOnly(base, r)
    ensures forall id :: id in base && id !in c ==> r[id] == base[id]
  {
    var moved := h.shuffleTime(Places(base), c);
    map id | id in base :: if id in c && id in moved then base[id].(place := moved[id]) else base[id]
  }

  /** The strips of `done` moved `d` channels. */
  function ShiftMachines(base: Seqbase, done: set<StripId>, d: int): (r: Seqbase)
    ensures r.Keys == base.Keys && PlaceOnly(base, r)
  {
    map id | id in base ::
      if id in done then base[id].(place := base[id].place.(machine := base[id].Machine() + d)) else base[id]
  }

  /** Moving strips up and back down by the same amount restores them. */
  lemma ShiftRoundTrip(base: Seqbase, c: set<StripId>, d: int)
    ensures ShiftMachines(ShiftMachines(base, c, d), c, -d) == base
  {
    var r := ShiftMachines(ShiftMachines(base, c, d), c, -d);
    assert r.Keys == base.Keys;
    forall id | id in base
      ensures r[id] == base[id]
    {
    }
  }

  /** Shifting one more strip. */
  lemma ShiftStep(base: Seqbase, done: set<StripId>, id: StripId, d: int)
    requires id in base && id !in done
    ensures ShiftMachines(base, done, d)[id] == base[id]
    ensures ShiftMachines(base, done + {id}, d) ==
      Move(ShiftMachines(base, done, d), id, base[id].place.(machine := base[id].Machine() + d))
  {
    var a := ShiftMachines(base, done + {id}, d);
    var b := Move(ShiftMachines(base, done, d), id, base[id].place.(machine := base[id].Machine() + d));
    assert a.Keys == b.Keys;
    forall k | k in a
      ensures a[k] == b[k]
    {
    }
  }

  /** The `seq->machine += d` loop over a collection. */
  method ShiftEach(base: Seqbase, c: set<StripId>, d: int) returns (r: Seqbase)
    requires c <= base.Keys
    ensures r == ShiftMachines(base, c, d)
  {
    r := base;
    assert r == ShiftMachines(base, {}, d);
    var todo := c;
    ghost var done: set<StripId> := {};
    while todo != {}
      invariant todo <= c
      invariant forall x :: x in done <==> x in c && x !in todo
      invariant r == ShiftMachines(base, done, d)
      decreases |todo|
    {
      var id :| id in todo;
      ShiftStep(base, done, id, d);
      todo := todo - {id};
      r := Move(r, id, r[id].place.(machine := r[id].Machine() + d));
      done := done + {id};
    }
    assert done == c;
  }

  /** The transformed strips extract_standalone_strips keeps. */
  function StandaloneOf(base: Seqbase, transformed: set<StripId>): (r: set<StripId>)
    requires transformed <= base.Keys
    ensures r <= transformed
  {
    set id | id in transformed && Standalone(base[id])
  }

  /** Retiming keeps every strip up to its placement. */
  lemma FoldKeepsFlags(h: Host, kind: StepKind, base: Seqbase, order: seq<StripId>)
    requires ListedIn(order, base) && kind != ShuffleClear
    ensures PlaceOnly(base, Fold(h, kind, base, order))
  {
    FoldChanges(h, kind, base, order);
  }

  /**
   * The placements after the two time shuffles of expand-to-fit: right-side
   * strips lifted out of the way, standalone strips shuffled, right-side
   * strips put back and shuffled.
   */
  function ExpandPlacement(h: Host, base: Seqbase, right: set<StripId>, standalone: set<StripId>): (r: Seqbase)
    ensures r.Keys == base.Keys && PlaceOnly(base, r)
  {
    var lifted := ShiftMachines(base, right, 2 * MAXSEQ);
    var placed := ShuffleTime(h, lifted, standalone);
    var restored := ShiftMachines(placed, right, -2 * MAXSEQ);
    PlaceOnlyTrans(base, lifted, placed);
    PlaceOnlyTrans(base, placed, restored);
    PlaceOnlyTrans(base, restored, ShuffleTime(h, restored, right));
    ShuffleTime(h, restored, right)
  }

  /** A strip kept up to its placement is still an effect with inputs, or still not one. */
  lemma PlaceOnlyKeepsEffect(a: Seqbase, b: Seqbase, id: StripId)
    requires PlaceOnly(a, b) && id in a && id in b
    ensures NeedsEffectUpdate(b[id]) == NeedsEffectUpdate(a[id])
  {
    assert b[id] == a[id].(place := b[id].place);
  }

  /** The lift, the two shuffles and the return of seq_transform_handle_expand_to_fit. */
  method ExpandShuffles(h: Host, base: Seqbase, right: set<StripId>, transformed: set<StripId>) returns (r: Seqbase)
    requires right <= base.Keys && transformed <= base.Keys
    ensures r == ExpandPlacement(h, base, right, StandaloneOf(base, transformed))
  {
    var cur := ShiftEach(base, right, 2 * MAXSEQ);
    var standalone := ExtractStandaloneStrips(cur, transformed);
    assert standalone == StandaloneOf(base, transformed);
    cur := ShuffleTime(h, cur, standalone);
    cur := ShiftEach(cur, right, -2 * MAXSEQ);
    r := ShuffleTime(h, cur, right);
  }

  /**
   * seq_transform_handle_expand_to_fit: right-side strips are lifted
   * 2 * MAXSEQ channels out of the way, the standalone transformed strips
   * shuffled in time, the right-side strips put back and shuffled in time
   * in turn, and their effects retimed. No flag changes.
   */
  method HandleExpandToFit(h: Host, base: Seqbase, transformed: set<StripId>)
    returns (r: Seqbase, ghost right: set<StripId>, ghost minframe: int, ghost order: seq<StripId>)
    requires transformed <= base.Keys
    ensures IsMinFrame(base, transformed, minframe)
    ensures forall id :: id in right <==> id in base && !base[id].Selected() && base[id].StartDisp() >= minframe
    ensures ListedIn(order, base) && forall id :: id in order <==> id in right && NeedsEffectUpdate(base[id])
    ensures r == Fold(h, EffectUpdate, ExpandPlacement(h, base, right, StandaloneOf(base, transformed)), order)
    ensures r.Keys == base.Keys && PlaceOnly(base, r)
  {
    var rightSide;
    rightSide, minframe := QueryRightSideStrips(base, transformed);
    right := rightSide;
    var cur := ExpandShuffles(h, base, rightSide, transformed);
    assert cur.Keys == base.Keys && PlaceOnly(base, cur);
    r, order := UpdateEffects(h, cur, rightSide);
    forall id | id in right
      ensures NeedsEffectUpdate(cur[id]) == NeedsEffectUpdate(base[id])
    {
      PlaceOnlyKeepsEffect(base, cur, id);
    }
    FoldKeepsFlags(h, EffectUpdate, cur, order);
    PlaceOnlyTrans(base, cur, r);
  }

  /**
   * The lift keeps the right-side strips out of the first shuffle: a
   * right-side strip that is not itself shuffled comes back to its own
   * placement before the second shuffle.
   */
  lemma LiftIsUndone(h: Host, base: Seqbase, right: set<StripId>, standalone: set<StripId>, id: StripId)
    requires id in base && id in right && id !in standalone
    ensures ShiftMachines(ShuffleTime(h, ShiftMachines(base, right, 2 * MAXSEQ), standalone), right, -2 * MAXSEQ)[id]
      == base[id]
  {
  }

  /** seq_transform_handle_overlap_shuffle: shuffles the standalone transformed strips in time. */
  method HandleOverlapShuffle(h: Host, base: Seqbase, transformed: set<StripId>) returns (r: Seqbase)
    requires transformed <= base.Keys
    ensures r == ShuffleTime(h, base, StandaloneOf(base, transformed))
  {
    var standalone := ExtractStandaloneStrips(base, transformed);
    assert standalone == StandaloneOf(base, transformed);
    r := ShuffleTime(h, base, standalone);
  }

  /**
   * The first half of seq_transform_handle_overlap: resolves by the
   * policy, then retimes the transformed effects when some have inputs.
   */
  method ResolveByPolicy(h: Host, mode: OverlapMode, base: Seqbase, transformed: set<StripId>)
    returns (resolved: Seqbase)
    requires transformed <= base.Keys
    ensures transformed <= resolved.Keys && PlaceOnly(base, resolved)
    ensures mode != Overwrite ==> resolved.Keys == base.Keys
    ensures mode == Shuffle && !(exists id :: id in transformed && EffectWithInputs(base[id])) ==>
      resolved == ShuffleTime(h, base, StandaloneOf(base, transformed))
  {
    var cur: Seqbase;
    match mode {
      case Expand =>
        ghost var right, minframe, updated;
        cur, right, minframe, updated := HandleExpandToFit(h, base, transformed);
      case Overwrite =>
        ghost var visits;
        cur, visits := HandleOverwrite(h, base, transformed);
      case Shuffle =>
        cur := HandleOverlapShuffle(h, base, transformed);
    }
    ghost var policy := cur;
    var hasEffects := CheckStripEffects(cur, transformed);
    if hasEffects {
      ghost var updated;
      cur, updated := UpdateEffects(h, cur, transformed);
      FoldKeepsFlags(h, EffectUpdate, policy, updated);
      PlaceOnlyTrans(base, policy, cur);
    } else if mode == Shuffle {
      assert forall id :: id in transformed ==> EffectWithInputs(cur[id]) == EffectWithInputs(base[id]);
    }
    resolved := cur;
  }

  /**
   * seq_transform_handle_overlap: resolves by the policy, retimes the
   * transformed effects when some have inputs, then shuffles each
   * transformed strip still overlapping and clears its SEQ_OVERLAP.
   * `resolved` is the seqbase before that last loop.
   */
  method HandleOverlap(h: Host, mode: OverlapMode, base: Seqbase, transformed: set<StripId>)
    returns (r: Seqbase, ghost resolved: Seqbase, ghost order: seq<StripId>)
    requires transformed <= base.Keys
    ensures transformed <= resolved.Keys && PlaceOnly(base, resolved)
    ensures mode != Overwrite ==> resolved.Keys == base.Keys
    ensures mode == Shuffle && !(exists id :: id in transformed && EffectWithInputs(base[id])) ==>
      resolved == ShuffleTime(h, base, StandaloneOf(base, transformed))
    ensures ListedIn(order, resolved) && Distinct(order) && forall id :: id in order <==> id in transformed
    ensures r == Fold(h, ShuffleClear, resolved, order)
    ensures r.Keys == resolved.Keys
    ensures forall id :: id in transformed ==> SEQ_OVERLAP !in r[id].flag
    ensures forall id :: id in base && id in r ==>
      SameButPlaceAndFlag(r[id], base[id]) &&
      r[id].flag == (if id in transformed then base[id].flag - {SEQ_OVERLAP} else base[id].flag)
  {
    var cur := ResolveByPolicy(h, mode, base, transformed);
    resolved := cur;
    r, order := StepEach(h, ShuffleClear, cur, transformed, false);
    FoldChanges(h, ShuffleClear, resolved, order);
    forall id | id in base && id in r
      ensures SameButPlaceAndFlag(r[id], base[id])
      ensures r[id].flag == (if id in transformed then base[id].flag - {SEQ_OVERLAP} else base[id].flag)
    {
      assert resolved[id] == base[id].(place := resolved[id].place);
    }
  }

  /** seq_transform_cancel: shuffles each transformed strip still overlapping, then retimes it. */
  method TransformCancel(h: Host, base: Seqbase, transformed: set<StripId>)
    returns (r: Seqbase, ghost order: seq<StripId>)
    requires transformed <= base.Keys
    ensures ListedIn(order, base) && Distinct(order) && forall id :: id in order <==> id in transformed
    ensures r == Fold(h, CancelRestore, base, order)
    ensures r.Keys == base.Keys && PlaceOnly(base, r)
  {
    r, order := StepEach(h, CancelRestore, base, transformed, false);
    FoldKeepsFlags(h, CancelRestore, base, order);
  }

  /** The strips of `done` with one flag bit cleared. */
  function ClearBit(base: Seqbase, done: set<StripId>, bit: nat): (r: Seqbase)
    ensures r.Keys == base.Keys && Places(r) == Places(base)
  {
    var r := map id | id in base :: if id in done then base[id].(flag := base[id].flag - {bit}) else base[id];
    assert Places(r) == Places(base);
    r
  }

  /** Clearing the bit of one more strip. */
  lemma ClearStep(base: Seqbase, done: set<StripId>, id: StripId, bit: nat)
    requires id in base && id !in done
    ensures ClearBit(base, done, bit)[id] == base[id]
    ensures ClearBit(base, done + {id}, bit) == SetFlag(ClearBit(base, done, bit), id, base[id].flag - {bit})
  {
    var a := ClearBit(base, done + {id}, bit);
    var b := SetFlag(ClearBit(base, done, bit), id, base[id].flag - {bit});
    assert a.Keys == b.Keys;
    forall k | k in a
      ensures a[k] == b[k]
    {
    }
  }

  /** The `seq->flag &= ~bit` loop over a collection. */
  method ClearEach(base: Seqbase, c: set<StripId>, bit: nat) returns (r: Seqbase)
    requires c <= base.Keys
    ensures r == ClearBit(base, c, bit)
  {
    r := base;
    assert r == ClearBit(base, {}, bit);
    var todo := c;
    ghost var done: set<StripId> := {};
    while todo != {}
      invariant todo <= c
      invariant forall x :: x in done <==> x in c && x !in todo
      invariant r == ClearBit(base, done, bit)
      decreases |todo|
    {
      var id :| id in todo;
      ClearStep(base, done, id, bit);
      todo := todo - {id};
      r := SetFlag(r, id, r[id].flag - {bit});
      done := done + {id};
    }
    assert done == c;
  }

  /** The strips the buffer's slots name. */
  function BufferStrips(td: seq<TransEntry>): set<StripId>
  {
    set k | 0 <= k < |td| :: td[k].id
  }

  /** Some transformed strip carries SEQ_OVERLAP. */
  predicate AnyOverlap(base: Seqbase, transformed: set<StripId>)
    requires transformed <= base.Keys
  {
    exists id :: id in transformed && SEQ_OVERLAP in base[id].flag
  }

  /**
   * The end of freeSeqData when not cancelled: overlap handling when some
   * transformed strip carries SEQ_OVERLAP, then the effect update.
   */
  method FinishTransform(h: Host, mode: OverlapMode, base: Seqbase, transformed: set<StripId>)
    returns (r: Seqbase)
    requires transformed <= base.Keys
    ensures transformed <= r.Keys
    ensures !AnyOverlap(base, transformed) ==> r.Keys == base.Keys
    ensures forall id :: id in base && id in r ==>
      SameButPlaceAndFlag(r[id], base[id]) &&
      r[id].flag == (if id in transformed && AnyOverlap(base, transformed) then base[id].flag - {SEQ_OVERLAP}
                     else base[id].flag)
  {
    var cur := base;
    var overlap := CheckOverlap(base, transformed);
    if overlap {
      ghost var resolved, order;
      cur, resolved, order := HandleOverlap(h, mode, base, transformed);
    }
    ghost var order;
    r, order := UpdateEffects(h, cur, transformed);
    FoldKeepsFlags(h, EffectUpdate, cur, order);
    forall id | id in base && id in r
      ensures SameButPlaceAndFlag(r[id], base[id])
    {
      assert r[id] == cur[id].(place := r[id].place);
    }
  }

  /**
   * freeSeqData with an editing present: the transformed strips (the
   * buffer's strips and their effect chains) lose SEQ_IGNORE_CHANNEL_LOCK.
   * A cancelled transform only shuffles and retimes them. Otherwise overlap
   * is resolved when some transformed strip carries SEQ_OVERLAP, and their
   * effects are retimed. Flags are only ever cleared.
   */
  method FreeSeqData(h: Host, mode: OverlapMode, cancelled: bool, base: Seqbase, td: array<TransEntry>)
    returns (r: Seqbase, ghost transformed: set<StripId>)
    requires forall k :: 0 <= k < td.Length ==> td[k].id in base
    ensures transformed == ExpandEffectChain(h, base, BufferStrips(td[..]))
    ensures transformed <= r.Keys
    ensures forall id :: id in transformed ==> SEQ_IGNORE_CHANNEL_LOCK !in r[id].flag
    ensures forall id :: id in base && id in r ==> SameButPlaceAndFlag(r[id], base[id]) && r[id].flag <= base[id].flag
    ensures (cancelled || !AnyOverlap(base, transformed)) ==>
      r.Keys == base.Keys &&
      forall id :: id in base ==>
        r[id].flag == (if id in transformed then base[id].flag - {SEQ_IGNORE_CHANNEL_LOCK} else base[id].flag)
    ensures !cancelled && AnyOverlap(base, transformed) ==>
      forall id :: id in transformed ==> SEQ_OVERLAP !in r[id].flag
    ensures forall id :: id in base && id in r ==>
      r[id].flag == if id !in transformed then base[id].flag
                    else if !cancelled && AnyOverlap(base, transformed) then base[id].flag - {SEQ_IGNORE_CHANNEL_LOCK} - {SEQ_OVERLAP}
                    else base[id].flag - {SEQ_IGNORE_CHANNEL_LOCK}
  {
    var collection := CollectionFromTransData(td);
    assert collection == BufferStrips(td[..]);
    var strips := ExpandEffectChain(h, base, collection);
    transformed := strips;
    var cur := ClearEach(base, strips, SEQ_IGNORE_CHANNEL_LOCK);
    assert AnyOverlap(cur, strips) == AnyOverlap(base, strips) by {
      assert forall id :: id in strips ==> (SEQ_OVERLAP in cur[id].flag <==> SEQ_OVERLAP in base[id].flag);
    }
    if cancelled {
      ghost var order;
      r, order := TransformCancel(h, cur, strips);
    } else {
      r := FinishTransform(h, mode, cur, strips);
    }
    forall id | id in base && id in r
      ensures SameButPlaceAndFlag(r[id], base[id]) && r[id].flag <= base[id].flag
    {
      assert cur[id] == base[id].(flag := cur[id].flag);
    }
  }
}
