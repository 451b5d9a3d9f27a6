/**
 * The strip data the sequencer transform code reads and writes, and the
 * sequencer library calls it makes whose bodies are not part of this model.
 *
 * A strip (`Sequence` in the sequencer) is a value here; the seqbase list of
 * the active editing is a map from strip identity (the pointer) to strip.
 * A `SeqCollection` is a finite set of strip identities.
 */
module SeqModel {
  import opened Wrappers

  type StripId = nat

  /**
   * A flag word (`Sequence.flag`) as the set of its bits that are set,
   * each bit named by its position: `f & SELECT` is `SELECT in f`,
   * `f | SELECT` is `f + {SELECT}`, `f & ~SELECT` is `f - {SELECT}`.
   */
  type Flags = set<nat>

  const SELECT: nat := 0                    // mask 1
  const SEQ_LEFTSEL: nat := 1               // mask 1 << 1
  const SEQ_RIGHTSEL: nat := 2              // mask 1 << 2
  const SEQ_OVERLAP: nat := 3               // mask 1 << 3
  const SEQ_IGNORE_CHANNEL_LOCK: nat := 16  // mask 1 << 16

  /* Strip type bit shared by every effect strip (`Sequence.type`). */
  const SEQ_TYPE_EFFECT: bv32 := 8

  /* Highest channel and highest frame of the timeline. */
  const MAXSEQ: int := 128
  const MAXFRAME: int := 1048574

  /** Where a strip sits: its channel and its timing. */
  datatype Placement = Placement(machine: int, start: int, startdisp: int, enddisp: int)

  datatype Strip = Strip(
    flag: Flags,
    place: Placement,
    kind: bv32,
    seq1: Option<StripId>,
    seq2: Option<StripId>,
    seq3: Option<StripId>)
  {
    predicate Selected() { SELECT in flag }
    predicate IsEffect() { kind & SEQ_TYPE_EFFECT != 0 }
    predicate HasInputs() { seq1.Some? || seq2.Some? || seq3.Some? }
    function Machine(): int { place.machine }
    function StartDisp(): int { place.startdisp }
    function EndDisp(): int { place.enddisp }
  }

  type Seqbase = map<StripId, Strip>

  /** The placements of all strips: what the library's placement queries read. */
  function Places(base: Seqbase): (p: map<StripId, Placement>)
    ensures p.Keys == base.Keys
    ensures forall id :: id in base ==> p[id] == base[id].place
  {
    map id | id in base :: base[id].place
  }

  /** A strip with only its flag changed keeps its placement. */
  lemma PlacesIgnoreFlags(base: Seqbase, id: StripId, f: Flags)
    requires id in base
    ensures Places(base[id := base[id].(flag := f)]) == Places(base)
  {
  }

  /** Which overlap policy the tool settings choose. */
  datatype OverlapMode = Expand | Overwrite | Shuffle

  /**
   * The sequencer library functions called by the transform code. Their
   * bodies are not part of this model, so they are parameters. Operations
   * that move a strip return only its new placement: none of them touches a
   * flag.
   */
  datatype Host = Host(
    /* SEQ_transform_is_locked(channels, seq) */
    isLocked: Strip -> bool,
    /* SEQ_transform_get_left_handle_frame / _right_ */
    leftHandle: Strip -> int,
    rightHandle: Strip -> int,
    /* SEQ_transform_sequence_can_be_translated */
    canBeTranslated: Strip -> bool,
    /* SEQ_transform_translate_sequence */
    translate: (Strip, int) -> Placement,
    /* handle set, SEQ_transform_handle_xlimits, single image fix and time
       update, as done by the flush for a dragged handle */
    dragLeft: (Strip, int, bool, bool) -> Placement,
    dragRight: (Strip, int, bool, bool) -> Placement,
    /* SEQ_transform_set_left/right_handle_frame followed by the time update */
    trimLeft: (Strip, int) -> Placement,
    trimRight: (Strip, int) -> Placement,
    /* SEQ_edit_strip_split: placement of the kept left part and of the new right part */
    splitAt: (Strip, int) -> (Placement, Placement),
    /* SEQ_time_update_sequence */
    timeUpdate: (map<StripId, Placement>, StripId) -> Placement,
    /* SEQ_transform_test_overlap */
    testOverlap: (map<StripId, Placement>, StripId) -> bool,
    /* SEQ_transform_test_overlap_seq_seq */
    overlapSeqSeq: (Strip, Strip) -> bool,
    /* SEQ_transform_seqbase_shuffle: new placement of one strip */
    shuffle: (map<StripId, Placement>, StripId) -> Placement,
    /* SEQ_transform_seqbase_shuffle_time: new placements of the strips of a collection */
    shuffleTime: (map<StripId, Placement>, set<StripId>) -> map<StripId, Placement>,
    /* strips SEQ_query_strip_effect_chain adds to a collection */
    effectChain: (Seqbase, set<StripId>) -> set<StripId>,
    /* SEQ_effect_get_num_inputs */
    numInputs: bv32 -> int)

  /**
   * SEQ_collection_expand with SEQ_query_strip_effect_chain: the collection
   * grows by the effect chain; every member is a strip of the seqbase.
   */
  function ExpandEffectChain(h: Host, base: Seqbase, c: set<StripId>): (r: set<StripId>)
    ensures c * base.Keys <= r <= base.Keys
  {
    (c + h.effectChain(base, c)) * base.Keys
  }

  /** Replace the placement of one strip, leaving its flags alone. */
  function Move(base: Seqbase, id: StripId, p: Placement): (r: Seqbase)
    requires id in base
    ensures r.Keys == base.Keys
    ensures r[id].place == p && r[id].flag == base[id].flag
    ensures forall k :: k in base && k != id ==> r[k] == base[k]
  {
    base[id := base[id].(place := p)]
  }

  /** Replace the flag of one strip, leaving its placement alone. */
  function SetFlag(base: Seqbase, id: StripId, f: Flags): (r: Seqbase)
    requires id in base
    ensures r.Keys == base.Keys && Places(r) == Places(base)
    ensures r[id].flag == f
    ensures forall k :: k in base && k != id ==> r[k] == base[k]
  {
    PlacesIgnoreFlags(base, id, f);
    base[id := base[id].(flag := f)]
  }

  /** `r` keeps every strip of `base` it still holds, up to its placement. */
  predicate PlaceOnly(base: Seqbase, r: Seqbase)
  {
    forall id :: id in base && id in r ==> r[id] == base[id].(place := r[id].place)
  }

  /** Keeping strips up to placement composes when no strip is dropped and re-added. */
  lemma PlaceOnlyTrans(a: Seqbase, b: Seqbase, c: Seqbase)
    requires PlaceOnly(a, b) && PlaceOnly(b, c)
    requires forall id :: id in a && id in c ==> id in b
    ensures PlaceOnly(a, c)
  {
  }
}
