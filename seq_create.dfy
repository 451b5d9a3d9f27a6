/**
 * createTransSeqData: building the sequencer's transform data when a
 * transform starts. Counting, allocation of the buffer, filling it, the
 * selection's channel range and the strips whose timing depends on the
 * transformed ones.
 */
module SeqCreate {
  import opened Wrappers
  import opened SeqModel
  import opened SeqTransData
  import opened SeqEffects

  /** TransSeq, the custom data kept for the duration of the transform. */
  datatype TransSeq = TransSeq(channelMin: int, channelMax: int, timeDependent: set<StripId>)

  /** Counting moves the frame side only where the rule does not read it, so both passes agree. */
  lemma {:induction false} SameRuleSameEntries(h: Host, t: TransContext, t0: TransContext, order: seq<StripId>, base: Seqbase)
    requires SameRule(t, t0) && ListedIn(order, base)
    ensures TotalCount(h, t, order, base) == TotalCount(h, t0, order, base)
    ensures Entries(h, t, order, base) == Entries(h, t0, order, base)
  {
    if order != [] {
      var pre := order[..|order| - 1];
      assert ListedIn(pre, base);
      SameRuleSameEntries(h, t, t0, pre, base);
    }
  }

  /** The channel range recorded is that of the selected strips of the list. */
  predicate ChannelRangeOf(order: seq<StripId>, base: Seqbase, lo: int, hi: int)
    requires ListedIn(order, base)
  {
    && (forall i :: 0 <= i < |order| && base[order[i]].Selected() ==>
          lo <= base[order[i]].Machine() <= hi)
    && (lo == MAXSEQ + 1 || exists i :: 0 <= i < |order| && base[order[i]].Selected() && base[order[i]].Machine() == lo)
    && (hi == 0 || exists i :: 0 <= i < |order| && base[order[i]].Selected() && base[order[i]].Machine() == hi)
  }

  /**
   * createTransSeqData. `editing` is the scene's sequence editor, absent
   * when the scene has none; `side` is the frame side computed from the
   * current frame before counting. No custom data is made when nothing
   * is counted; otherwise the buffer holds exactly the entries the rules
   * call for, in list order.
   */
  method CreateTransSeqData(h: Host, t0: TransContext, side: char, editing: Option<Seqbase>, order: seq<StripId>,
                            ghost rank: map<StripId, nat>)
    returns (td: array<TransEntry>, custom: Option<TransSeq>, ghost chained: set<StripId>)
    requires editing.Some? ==> ListedIn(order, editing.value) && Ranked(editing.value, rank)
    ensures fresh(td)
    ensures editing.None? ==> td.Length == 0 && custom.None?
    ensures editing.Some? ==>
      var base := editing.value;
      var t := t0.(frameSide := side);
      && td.Length == TotalCount(h, t, order, base)
      && td[..] == Entries(h, t, order, base)
      && (custom.None? <==> td.Length == 0)
      && (custom.Some? ==>
            && ChannelRangeOf(order, base, custom.value.channelMin, custom.value.channelMax)
            && LeastClosure(base, ExpandEffectChain(h, base, NoHandleStrips(base)), NoHandleStrips(base), chained)
            && forall id :: id in custom.value.timeDependent <==>
                 (id in chained || HandleDependent(h, base, rank, id)) && id in base && !h.canBeTranslated(base[id]))
  {
    chained := {};
    if editing.None? {
      td := new TransEntry[0];
      custom := None;
      return;
    }
    var base := editing.value;
    var t := t0.(frameSide := side);
    var count, sideAfter := SeqTransCount(h, t, order, base);
    var t1 := t.(frameSide := sideAfter);
    assert SameRule(t1, t);
    SameRuleSameEntries(h, t1, t, order, base);
    td := new TransEntry[count](_ => TransEntry(0, {}, 0, 0, 0, 0));
    if count == 0 {
      EntriesMatchCount(h, t, order, base);
      assert td[..] == [];
      custom := None;
      return;
    }
    var tot := SeqToTransDataBuild(h, t1, order, base, td);
    var lo, hi := SelectionChannelRange(order, base);
    var dep;
    dep, chained := QueryTimeDependentStrips(h, base, rank);
    custom := Some(TransSeq(lo, hi, dep));
  }
}
