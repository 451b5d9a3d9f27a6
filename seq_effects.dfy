/**
 * Effect strips and their inputs: which input lies on a given side, the
 * walk down to the base input, and the strips whose timing depends
 * entirely on the transformed strips (the time-dependent query).
 */
module SeqEffects {
  import opened Wrappers
  import opened SeqModel
  import opened SeqQueries

  /** SeqInputSide: LEFT is -1, RIGHT is +1. */
  datatype InputSide = InputLeft | InputRight
  {
    function Sign(): int { if InputLeft? then -1 else 1 }
  }

  /**
   * The effect graph is well-founded: every input is a strip of the seqbase
   * of smaller rank, and a second input only comes with a first one.
   */
  ghost predicate Ranked(base: Seqbase, rank: map<StripId, nat>)
  {
    && base.Keys <= rank.Keys
    && forall id :: id in base ==>
      && (base[id].seq2.Some? ==> base[id].seq1.Some?)
      && (base[id].seq1.Some? ==> base[id].seq1.value in base && rank[base[id].seq1.value] < rank[id])
      && (base[id].seq2.Some? ==> base[id].seq2.value in base && rank[base[id].seq2.value] < rank[id])
  }

  /**
   * effect_input_get: the first input, unless a second input starts
   * strictly further towards `side`.
   */
  function EffectInputGet(base: Seqbase, s: Strip, side: InputSide): (r: Option<StripId>)
    requires s.seq2.Some? ==> s.seq1.Some? && s.seq1.value in base && s.seq2.value in base
    ensures r == s.seq1 || r == s.seq2
    ensures s.seq2.Some? && side == InputLeft ==>
      base[r.value].StartDisp() <= base[s.seq1.value].StartDisp() &&
      base[r.value].StartDisp() <= base[s.seq2.value].StartDisp()
    ensures s.seq2.Some? && side == InputRight ==>
      base[r.value].StartDisp() >= base[s.seq1.value].StartDisp() &&
      base[r.value].StartDisp() >= base[s.seq2.value].StartDisp()
    ensures s.seq2.Some? && base[s.seq1.value].StartDisp() == base[s.seq2.value].StartDisp() ==> r == s.seq1
  {
    if s.seq2.Some? && (base[s.seq2.value].StartDisp() - base[s.seq1.value].StartDisp()) * side.Sign() > 0
    then s.seq2
    else s.seq1
  }

  /** With two inputs starting at different frames, the two sides pick different inputs. */
  lemma SidesPickDifferentInputs(base: Seqbase, s: Strip)
    requires s.seq1.Some? && s.seq2.Some? && s.seq1.value in base && s.seq2.value in base
    requires base[s.seq1.value].StartDisp() != base[s.seq2.value].StartDisp()
    ensures EffectInputGet(base, s, InputLeft) != EffectInputGet(base, s, InputRight)
  {
  }

  /** The strip reached by following the side's input until a strip has none. */
  ghost function BaseInput(base: Seqbase, rank: map<StripId, nat>, id: StripId, side: InputSide): (r: StripId)
    requires Ranked(base, rank) && id in base
    ensures r in base && base[r].seq1.None?
    ensures r == id || rank[r] < rank[id]
    decreases rank[id]
  {
    match EffectInputGet(base, base[id], side)
    case None => id
    case Some(next) => BaseInput(base, rank, next, side)
  }

  /** effect_base_input_get: the loop following inputs from the effect itself. */
  method EffectBaseInputGet(base: Seqbase, ghost rank: map<StripId, nat>, effect: StripId, side: InputSide)
    returns (input: StripId)
    requires Ranked(base, rank) && effect in base
    ensures input == BaseInput(base, rank, effect, side)
  {
    input := effect;
    var iter: Option<StripId> := Some(effect);
    while iter.Some?
      invariant iter.Some? ==> iter.value in base && BaseInput(base, rank, iter.value, side) == BaseInput(base, rank, effect, side)
      invariant iter.None? ==> input == BaseInput(base, rank, effect, side)
      decreases if iter.Some? then rank[iter.value] + 1 else 0
    {
      input := iter.value;
      iter := EffectInputGet(base, base[input], side);
    }
  }

  /** An effect all of whose (one or two) inputs are already dependent. */
  predicate InputsIn(base: Seqbase, dep: set<StripId>, id: StripId)
    requires id in base
  {
    && base[id].seq1.Some? && base[id].seq1.value in dep
    && (base[id].seq2.None? || base[id].seq2.value in dep)
  }

  /** `s` contains `init` and every candidate whose inputs are all in `s`. */
  ghost predicate ClosedUnder(base: Seqbase, cand: set<StripId>, init: set<StripId>, s: set<StripId>)
    requires cand <= base.Keys
  {
    init <= s && forall id :: id in cand && InputsIn(base, s, id) ==> id in s
  }

  /** `dep` is the least set closed under the dependency rule. */
  ghost predicate LeastClosure(base: Seqbase, cand: set<StripId>, init: set<StripId>, dep: set<StripId>)
    requires cand <= base.Keys
  {
    && ClosedUnder(base, cand, init, dep)
    && dep <= init + cand
    && forall s :: ClosedUnder(base, cand, init, s) ==> dep <= s
  }

  /** Growing the dependent set keeps every inputs-in fact. */
  lemma InputsInMonotone(base: Seqbase, a: set<StripId>, b: set<StripId>, id: StripId)
    requires id in base && a <= b && InputsIn(base, a, id)
    ensures InputsIn(base, b, id)
  {
  }

  /**
   * The `while (strip_added)` loop of query_time_dependent_strips_strips:
   * passes over the candidates add each one whose inputs are all dependent,
   * until a pass adds nothing. The result is the least closure.
   */
  method DependentFixpoint(base: Seqbase, cand: set<StripId>, init: set<StripId>) returns (dep: set<StripId>)
    requires cand <= base.Keys
    ensures LeastClosure(base, cand, init, dep)
    ensures forall id :: id in dep - init ==> id in cand && InputsIn(base, dep, id)
  {
    dep := init;
    var stripAdded := true;
    while stripAdded
      invariant init <= dep <= init + cand
      invariant forall id :: id in dep - init ==> id in cand && InputsIn(base, dep, id)
      invariant forall s :: ClosedUnder(base, cand, init, s) ==> dep <= s
      invariant !stripAdded ==> ClosedUnder(base, cand, init, dep)
      decreases |cand - dep| + (if stripAdded then 1 else 0)
    {
      stripAdded := false;
      ghost var dep0 := dep;
      var todo := cand;
      while todo != {}
        invariant todo <= cand
        invariant init <= dep0 <= dep <= init + cand
        invariant forall id :: id in dep - init ==> id in cand && InputsIn(base, dep, id)
        invariant forall s :: ClosedUnder(base, cand, init, s) ==> dep <= s
        invariant stripAdded ==> |cand - dep| < |cand - dep0|
        invariant !stripAdded ==> dep == dep0
        invariant !stripAdded ==> forall id :: id in cand - todo && InputsIn(base, dep, id) ==> id in dep
        decreases |todo|
      {
        var id :| id in todo;
        todo := todo - {id};
        if id in dep {
          continue;
        }
        if base[id].seq1.Some? && base[id].seq1.value in dep {
          if base[id].seq2.Some? && base[id].seq2.value !in dep {
            continue;
          }
          assert InputsIn(base, dep, id);
          forall s | ClosedUnder(base, cand, init, s)
            ensures dep + {id} <= s
          {
            InputsInMonotone(base, dep, s, id);
          }
          forall x | x in dep - init
            ensures InputsIn(base, dep + {id}, x)
          {
            InputsInMonotone(base, dep, dep + {id}, x);
          }
          InputsInMonotone(base, dep, dep + {id}, id);
          assert cand - (dep + {id}) == (cand - dep) - {id};
          assert cand - dep <= cand - dep0;
          stripAdded := true;
          dep := dep + {id};
        }
      }
    }
  }

  /** SEQ_query_selected_strips: the selected strips of the seqbase. */
  function SelectedStrips(base: Seqbase): (r: set<StripId>)
    ensures forall id :: id in r <==> id in base && base[id].Selected()
  {
    set id | id in base && base[id].Selected()
  }

  /** Selected strips whose handles are both unselected. */
  function NoHandleStrips(base: Seqbase): (r: set<StripId>)
    ensures r <= SelectedStrips(base)
  {
    set id | id in base && base[id].Selected() && SEQ_LEFTSEL !in base[id].flag && SEQ_RIGHTSEL !in base[id].flag
  }

  /**
   * A two-input effect moved by dragged handles: its left base input has
   * the right handle selected and its right base input the left handle.
   */
  ghost predicate HandleDependent(h: Host, base: Seqbase, rank: map<StripId, nat>, id: StripId)
    requires Ranked(base, rank)
  {
    && id in ExpandEffectChain(h, base, SelectedStrips(base))
    && base[id].seq1.Some? && base[id].seq2.Some?
    && SEQ_RIGHTSEL in base[BaseInput(base, rank, id, InputLeft)].flag
    && SEQ_LEFTSEL in base[BaseInput(base, rank, id, InputRight)].flag
  }

  /**
   * The second pass of query_time_dependent_strips_strips: adds each
   * handle-dependent effect of the selection's effect chain.
   */
  method AddHandleDependent(h: Host, base: Seqbase, ghost rank: map<StripId, nat>, dep0: set<StripId>)
    returns (dep: set<StripId>)
    requires Ranked(base, rank) && dep0 <= base.Keys
    ensures dep <= base.Keys
    ensures forall id :: id in dep <==> id in dep0 || HandleDependent(h, base, rank, id)
  {
    dep := dep0;
    var selected := ExpandEffectChain(h, base, SelectedStrips(base));
    var todo := selected;
    while todo != {}
      invariant todo <= selected
      invariant dep <= base.Keys
      invariant forall id :: id in dep <==> id in dep0 || (id in selected - todo && HandleDependent(h, base, rank, id))
      decreases |todo|
    {
      var id :| id in todo;
      todo := todo - {id};
      if base[id].seq1.None? || base[id].seq2.None? {
        continue;
      }
      var inputLeft := EffectBaseInputGet(base, rank, id, InputLeft);
      var inputRight := EffectBaseInputGet(base, rank, id, InputRight);
      if SEQ_RIGHTSEL in base[inputLeft].flag && SEQ_LEFTSEL in base[inputRight].flag {
        dep := dep + {id};
      }
    }
  }

  /** The last pass of query_time_dependent_strips_strips: drops the strips that can be translated. */
  method DropTranslatable(h: Host, base: Seqbase, all: set<StripId>) returns (dep: set<StripId>)
    requires all <= base.Keys
    ensures forall id :: id in dep <==> id in all && !h.canBeTranslated(base[id])
  {
    dep := all;
    var todo := all;
    while todo != {}
      invariant todo <= all && dep <= all
      invariant forall id :: id in all - todo ==> (id in dep <==> !h.canBeTranslated(base[id]))
      invariant todo <= dep
      decreases |todo|
    {
      var id :| id in todo;
      todo := todo - {id};
      if h.canBeTranslated(base[id]) {
        dep := dep - {id};
      }
    }
  }

  /**
   * query_time_dependent_strips_strips: effects whose position follows the
   * transformed strips, through their inputs or through dragged handles,
   * and that cannot be translated on their own.
   */
  method QueryTimeDependentStrips(h: Host, base: Seqbase, ghost rank: map<StripId, nat>)
    returns (dep: set<StripId>, ghost chained: set<StripId>)
    requires Ranked(base, rank)
    ensures LeastClosure(base, ExpandEffectChain(h, base, NoHandleStrips(base)), NoHandleStrips(base), chained)
    ensures forall id :: id in dep <==>
      (id in chained || HandleDependent(h, base, rank, id)) && id in base && !h.canBeTranslated(base[id])
  {
    var noHandles := QuerySelectedStripsNoHandles(base);
    assert noHandles == NoHandleStrips(base);
    var cand := ExpandEffectChain(h, base, noHandles);
    var fixpoint := DependentFixpoint(base, cand, noHandles);
    chained := fixpoint;
    assert fixpoint <= base.Keys;
    var all := AddHandleDependent(h, base, rank, fixpoint);
    dep := DropTranslatable(h, base, all);
  }

}
