/**
 * Read-only queries over the seqbase and over strip collections used by
 * the sequencer transform: each loops over the list or a collection and
 * gathers a new collection or a yes/no answer.
 */
module SeqQueries {
  import opened Wrappers
  import opened SeqModel
  import opened SeqTransData

  /** SEQ_query_unselected_strips: the strips of the seqbase without SELECT. */
  function UnselectedStrips(base: Seqbase): (r: set<StripId>)
    ensures forall id :: id in r <==> id in base && !base[id].Selected()
  {
    set id | id in base && !base[id].Selected()
  }

  /** `m` is the smallest displayed start of the collection, or MAXFRAME when none is smaller. */
  ghost predicate IsMinFrame(base: Seqbase, transformed: set<StripId>, m: int)
    requires transformed <= base.Keys
  {
    && m <= MAXFRAME
    && (forall id :: id in transformed ==> m <= base[id].StartDisp())
    && (m == MAXFRAME || exists id :: id in transformed && base[id].StartDisp() == m)
  }

  /**
   * query_right_side_strips: the unselected strips that start at or after
   * the left edge of the transformed strips' bounding box.
   */
  method QueryRightSideStrips(base: Seqbase, transformed: set<StripId>) returns (r: set<StripId>, ghost minframe: int)
    requires transformed <= base.Keys
    ensures IsMinFrame(base, transformed, minframe)
    ensures forall id :: id in r <==> id in base && !base[id].Selected() && base[id].StartDisp() >= minframe
  {
    minframe := MAXFRAME;
    var m := MAXFRAME;
    var todo := transformed;
    while todo != {}
      invariant todo <= transformed
      invariant m <= MAXFRAME
      invariant forall id :: id in transformed - todo ==> m <= base[id].StartDisp()
      invariant m == MAXFRAME || exists id :: id in transformed - todo && base[id].StartDisp() == m
      decreases |todo|
    {
      var id :| id in todo;
      m := if base[id].StartDisp() < m then base[id].StartDisp() else m;
      todo := todo - {id};
    }
    minframe := m;

    r := {};
    var rest := base.Keys;
    while rest != {}
      invariant rest <= base.Keys
      invariant forall id :: id in r <==> id in base.Keys - rest && !base[id].Selected() && base[id].StartDisp() >= m
      decreases |rest|
    {
      var id :| id in rest;
      if !base[id].Selected() && base[id].StartDisp() >= m {
        r := r + {id};
      }
      rest := rest - {id};
    }
  }

  /** The unselected strip `u` overlaps some transformed strip. */
  predicate OverlapsSome(h: Host, base: Seqbase, u: StripId, transformed: set<StripId>)
    requires u in base && transformed <= base.Keys
  {
    exists t :: t in transformed && h.overlapSeqSeq(base[u], base[t])
  }

  /**
   * The inner loop of query_overwrite_targets for one unselected strip `u`:
   * whether `u` is itself among the transformed strips, and whether it
   * overlaps any of them.
   */
  method ScanTransformed(h: Host, base: Seqbase, u: StripId, transformed: set<StripId>)
    returns (isTransformed: bool, doesOverlap: bool)
    requires u in base && transformed <= base.Keys
    ensures isTransformed <==> u in transformed
    ensures doesOverlap <==> OverlapsSome(h, base, u, transformed)
  {
    isTransformed, doesOverlap := false, false;
    var inner := transformed;
    while inner != {}
      invariant inner <= transformed
      invariant isTransformed <==> u in transformed - inner
      invariant doesOverlap <==> exists t :: t in transformed - inner && h.overlapSeqSeq(base[u], base[t])
      decreases |inner|
    {
      var t :| t in inner;
      if u == t {
        isTransformed := true;
      }
      if h.overlapSeqSeq(base[u], base[t]) {
        doesOverlap := true;
      }
      inner := inner - {t};
    }
  }

  /**
   * query_overwrite_targets: starts from the unselected strips, drops each
   * one that is itself transformed and each one overlapping no transformed
   * strip. The removals during iteration are a filter here.
   */
  method QueryOverwriteTargets(h: Host, base: Seqbase, transformed: set<StripId>) returns (r: set<StripId>)
    requires transformed <= base.Keys
    ensures forall id :: id in r <==>
      id in base && !base[id].Selected() && id !in transformed && OverlapsSome(h, base, id, transformed)
  {
    var collection := UnselectedStrips(base);
    r := collection;
    var outer := collection;
    while outer != {}
      invariant outer <= collection && r <= collection
      invariant forall id :: id in collection - outer ==>
        (id in r <==> id !in transformed && OverlapsSome(h, base, id, transformed))
      invariant outer <= r
      decreases |outer|
    {
      var u :| u in outer;
      var isTransformed, doesOverlap := ScanTransformed(h, base, u, transformed);
      if isTransformed || !doesOverlap {
        r := r - {u};
      }
      outer := outer - {u};
    }
  }

  /** A strip that is not an effect with a first input. */
  predicate Standalone(s: Strip) { !s.IsEffect() || s.seq1.None? }

  /** extract_standalone_strips: the transformed strips that are not effects fed by an input. */
  method ExtractStandaloneStrips(base: Seqbase, transformed: set<StripId>) returns (r: set<StripId>)
    requires transformed <= base.Keys
    ensures forall id :: id in r <==> id in transformed && Standalone(base[id])
  {
    r := {};
    var todo := transformed;
    while todo != {}
      invariant todo <= transformed
      invariant forall id :: id in r <==> id in transformed - todo && Standalone(base[id])
      decreases |todo|
    {
      var id :| id in todo;
      if !base[id].IsEffect() || base[id].seq1 == None {
        r := r + {id};
      }
      todo := todo - {id};
    }
  }

  /** query_selected_strips_no_handles: selected strips with neither handle selected. */
  method QuerySelectedStripsNoHandles(base: Seqbase) returns (r: set<StripId>)
    ensures forall id :: id in r <==>
      id in base && base[id].Selected() && SEQ_LEFTSEL !in base[id].flag && SEQ_RIGHTSEL !in base[id].flag
  {
    r := {};
    var rest := base.Keys;
    while rest != {}
      invariant rest <= base.Keys
      invariant forall id :: id in r <==>
        (id in base.Keys - rest && base[id].Selected() && SEQ_LEFTSEL !in base[id].flag && SEQ_RIGHTSEL !in base[id].flag)
      decreases |rest|
    {
      var id :| id in rest;
      if base[id].Selected() && SEQ_LEFTSEL !in base[id].flag && SEQ_RIGHTSEL !in base[id].flag {
        r := r + {id};
      }
      rest := rest - {id};
    }
  }

  /** seq_transform_check_overlap: some transformed strip carries SEQ_OVERLAP. */
  method CheckOverlap(base: Seqbase, transformed: set<StripId>) returns (b: bool)
    requires transformed <= base.Keys
    ensures b <==> exists id :: id in transformed && SEQ_OVERLAP in base[id].flag
  {
    var todo := transformed;
    while todo != {}
      invariant todo <= transformed
      invariant forall id :: id in transformed - todo ==> SEQ_OVERLAP !in base[id].flag
      decreases |todo|
    {
      var id :| id in todo;
      if SEQ_OVERLAP in base[id].flag {
        return true;
      }
      todo := todo - {id};
    }
    return false;
  }

  /** An effect strip that has at least one input. */
  predicate EffectWithInputs(s: Strip) { s.IsEffect() && s.HasInputs() }

  /** seq_transform_check_strip_effects: some transformed strip is an effect with inputs. */
  method CheckStripEffects(base: Seqbase, transformed: set<StripId>) returns (b: bool)
    requires transformed <= base.Keys
    ensures b <==> exists id :: id in transformed && EffectWithInputs(base[id])
  {
    var todo := transformed;
    while todo != {}
      invariant todo <= transformed
      invariant forall id :: id in transformed - todo ==> !EffectWithInputs(base[id])
      decreases |todo|
    {
      var id :| id in todo;
      if base[id].IsEffect() && (base[id].seq1.Some? || base[id].seq2.Some? || base[id].seq3.Some?) {
        return true;
      }
      todo := todo - {id};
    }
    return false;
  }

  /** seq_transform_collection_from_transdata: the strips named by the buffer's slots. */
  method CollectionFromTransData(td: array<TransEntry>) returns (r: set<StripId>)
    ensures forall id :: id in r <==> exists k :: 0 <= k < td.Length && td[k].id == id
  {
    r := {};
    var a := 0;
    while a < td.Length
      invariant 0 <= a <= td.Length
      invariant forall id :: id in r <==> exists k :: 0 <= k < a && td[k].id == id
    {
      r := r + {td[a].id};
      a := a + 1;
    }
  }
}
