/**
 * Writing the transform back to the strips while the user drags
 * (flushTransSeq), and the clamp that keeps the selection's channels on
 * the timeline. Locations in the buffer are already rounded to integers.
 */
module SeqFlush {
  import opened Wrappers
  import opened SeqModel
  import opened SeqTransData
  import opened SeqQueries
  import opened SeqResolve

  /** CLAMP(v, lo, hi). */
  function Clamp(v: int, lo: int, hi: int): (r: int)
    requires lo <= hi
    ensures lo <= r <= hi
    ensures lo <= v <= hi ==> r == v
  {
    if v < lo then lo else if v > hi then hi else v
  }

  function Abs(x: int): nat { if x < 0 then -x else x }

  /**
   * max_offset after seeing the offsets in order: replaced only by an
   * offset of strictly larger magnitude, starting from 0.
   */
  function MaxAbs(offsets: seq<int>): (m: int)
    ensures forall i :: 0 <= i < |offsets| ==> Abs(offsets[i]) <= Abs(m)
    ensures m == 0 || exists i :: 0 <= i < |offsets| && offsets[i] == m && forall j :: 0 <= j < i ==> Abs(offsets[j]) < Abs(m)
  {
    if offsets == [] then 0
    else
      var pre := offsets[..|offsets| - 1];
      var x := offsets[|offsets| - 1];
      var m := MaxAbs(pre);
      assert forall i :: 0 <= i < |pre| ==> offsets[i] == pre[i];
      if Abs(x) > Abs(m) then x else m
  }

  /**
   * One buffer slot written back: SELECT translates the strip when it can
   * be translated and puts it on the clamped channel; a handle slot drags
   * that handle. The offset is what the slot contributes to max_offset.
   */
  function FlushEntry(h: Host, base: Seqbase, e: TransEntry): (r: (Seqbase, Option<int>))
    requires e.id in base
    ensures r.0.Keys == base.Keys && PlaceOnly(base, r.0)
    ensures forall k :: k in base && k != e.id ==> r.0[k] == base[k]
  {
    var s := base[e.id];
    if e.selFlag == SELECT then
      var offset := e.frame - e.startOffset - s.place.start;
      var moved := if h.canBeTranslated(s) then h.translate(s, offset) else s.place;
      (Move(base, e.id, moved.(machine := Clamp(e.channel, 1, MAXSEQ))),
       if h.canBeTranslated(s) then Some(offset) else None)
    else if e.selFlag == SEQ_LEFTSEL then
      var p := h.dragLeft(s, e.frame, SEQ_LEFTSEL in e.flag, SEQ_RIGHTSEL in e.flag);
      (Move(base, e.id, p), Some(p.startdisp - s.StartDisp()))
    else if e.selFlag == SEQ_RIGHTSEL then
      var p := h.dragRight(s, e.frame, SEQ_LEFTSEL in e.flag, SEQ_RIGHTSEL in e.flag);
      (Move(base, e.id, p), Some(p.enddisp - s.EndDisp()))
    else (base, None)
  }

  /** A SELECT slot leaves its strip on a channel between 1 and MAXSEQ, whatever the location. */
  lemma SelectClampsChannel(h: Host, base: Seqbase, e: TransEntry)
    requires e.id in base && e.selFlag == SELECT
    ensures 1 <= FlushEntry(h, base, e).0[e.id].Machine() <= MAXSEQ
  {
  }

  /** A left-handle slot reports, as its offset, how far the handle moved. */
  lemma HandleSlotOffset(h: Host, base: Seqbase, e: TransEntry)
    requires e.id in base && e.selFlag == SEQ_LEFTSEL
    ensures var r := FlushEntry(h, base, e);
      r.1 == Some(r.0[e.id].StartDisp() - base[e.id].StartDisp())
  {
  }

  predicate SlotsIn(entries: seq<TransEntry>, base: Seqbase)
  {
    forall k :: 0 <= k < |entries| ==> entries[k].id in base
  }

  /** The slots written back in buffer order, with the offsets they report. */
  function FlushAll(h: Host, base: Seqbase, entries: seq<TransEntry>): (r: (Seqbase, seq<int>))
    requires SlotsIn(entries, base)
    ensures r.0.Keys == base.Keys
  {
    if entries == [] then (base, [])
    else
      var prev := FlushAll(h, base, entries[..|entries| - 1]);
      var step := FlushEntry(h, prev.0, entries[|entries| - 1]);
      (step.0, if step.1.Some? then prev.1 + [step.1.value] else prev.1)
  }

  /** Writing the slots back changes placements only: every flag stays. */
  lemma {:induction false} FlushKeepsStrips(h: Host, base: Seqbase, entries: seq<TransEntry>)
    requires SlotsIn(entries, base)
    ensures PlaceOnly(base, FlushAll(h, base, entries).0)
  {
    if entries != [] {
      var pre := entries[..|entries| - 1];
      FlushKeepsStrips(h, base, pre);
      var prev := FlushAll(h, base, pre);
      PlaceOnlyTrans(base, prev.0, FlushEntry(h, prev.0, entries[|entries| - 1]).0);
    }
  }

  /** Strips the effect update of the flush retimes, in list order: those with an input. */
  function WithInputs(order: seq<StripId>, base: Seqbase): (r: seq<StripId>)
    requires ListedIn(order, base)
    ensures ListedIn(r, base)
    ensures forall id :: id in r <==> id in order && base[id].HasInputs()
  {
    if order == [] then []
    else
      var id := order[|order| - 1];
      WithInputs(order[..|order| - 1], base) + (if base[id].HasInputs() then [id] else [])
  }

  /** `SEQ_OVERLAP` of the strips of `done` set from the overlap test on the current placements. */
  function MarkOverlap(h: Host, base: Seqbase, done: set<StripId>): (r: Seqbase)
    ensures r.Keys == base.Keys && Places(r) == Places(base)
  {
    var r := map id | id in base ::
      if id in done then
        base[id].(flag := if h.testOverlap(Places(base), id) then (base[id].flag - {SEQ_OVERLAP}) + {SEQ_OVERLAP}
                          else base[id].flag - {SEQ_OVERLAP})
      else base[id];
    assert Places(r) == Places(base);
    r
  }

  /** Marking one more strip. */
  lemma MarkStep(h: Host, base: Seqbase, done: set<StripId>, id: StripId)
    requires id in base && id !in done
    ensures MarkOverlap(h, base, done)[id] == base[id]
    ensures MarkOverlap(h, base, done + {id}) ==
      SetFlag(MarkOverlap(h, base, done), id,
        if h.testOverlap(Places(base), id) then (base[id].flag - {SEQ_OVERLAP}) + {SEQ_OVERLAP}
        else base[id].flag - {SEQ_OVERLAP})
  {
    var a := MarkOverlap(h, base, done + {id});
    var b := SetFlag(MarkOverlap(h, base, done), id,
      if h.testOverlap(Places(base), id) then (base[id].flag - {SEQ_OVERLAP}) + {SEQ_OVERLAP}
      else base[id].flag - {SEQ_OVERLAP});
    assert a.Keys == b.Keys;
    forall k | k in a
      ensures a[k] == b[k]
    {
    }
  }

  /** One strip of the overlap test loop. */
  method MarkOne(h: Host, base: Seqbase, id: StripId) returns (r: Seqbase)
    requires id in base
    ensures r == SetFlag(base, id,
      if h.testOverlap(Places(base), id) then (base[id].flag - {SEQ_OVERLAP}) + {SEQ_OVERLAP}
      else base[id].flag - {SEQ_OVERLAP})
  {
    r := SetFlag(base, id, base[id].flag - {SEQ_OVERLAP});
    if h.testOverlap(Places(r), id) {
      r := SetFlag(r, id, r[id].flag + {SEQ_OVERLAP});
    }
  }

  /** The overlap test loop: clear SEQ_OVERLAP, then set it when the strip overlaps. */
  method MarkEach(h: Host, base: Seqbase, c: set<StripId>) returns (r: Seqbase)
    requires c <= base.Keys
    ensures r == MarkOverlap(h, base, c)
  {
    r := base;
    assert r == MarkOverlap(h, base, {});
    var todo := c;
    ghost var done: set<StripId> := {};
    while todo != {}
      invariant todo <= c
      invariant forall x :: x in done <==> x in c && x !in todo
      invariant r == MarkOverlap(h, base, done)
      decreases |todo|
    {
      var id :| id in todo;
      MarkStep(h, base, done, id);
      todo := todo - {id};
      r := MarkOne(h, r, id);
      done := done + {id};
    }
    assert done == c;
  }

  /** FlushAll over one more slot. */
  lemma FlushAllStep(h: Host, base: Seqbase, entries: seq<TransEntry>, a: nat)
    requires SlotsIn(entries, base) && a < |entries|
    ensures SlotsIn(entries[..a], base) && SlotsIn(entries[..a + 1], base)
    ensures entries[a].id in FlushAll(h, base, entries[..a]).0
    ensures var prev := FlushAll(h, base, entries[..a]);
      var step := FlushEntry(h, prev.0, entries[a]);
      FlushAll(h, base, entries[..a + 1]) == (step.0, if step.1.Some? then prev.1 + [step.1.value] else prev.1)
  {
    assert entries[..a + 1][..a] == entries[..a];
  }

  lemma MaxAbsStep(offsets: seq<int>, x: int)
    ensures MaxAbs(offsets + [x]) == if Abs(x) > Abs(MaxAbs(offsets)) then x else MaxAbs(offsets)
  {
    assert (offsets + [x])[..|offsets|] == offsets;
  }

  /** One slot of the write-back loop, with the offset it reports. */
  method FlushOne(h: Host, base: Seqbase, e: TransEntry) returns (r: Seqbase, offset: Option<int>)
    requires e.id in base
    ensures (r, offset) == FlushEntry(h, base, e)
  {
    var s := base[e.id];
    r := base;
    offset := None;
    if e.selFlag == SELECT {
      var moved := s.place;
      if h.canBeTranslated(s) {
        var off := e.frame - e.startOffset - s.place.start;
        moved := h.translate(s, off);
        offset := Some(off);
      }
      r := Move(r, e.id, moved.(machine := Clamp(e.channel, 1, MAXSEQ)));
    } else if e.selFlag == SEQ_LEFTSEL {
      r := Move(r, e.id, h.dragLeft(s, e.frame, SEQ_LEFTSEL in e.flag, SEQ_RIGHTSEL in e.flag));
      offset := Some(r[e.id].StartDisp() - s.StartDisp());
    } else if e.selFlag == SEQ_RIGHTSEL {
      r := Move(r, e.id, h.dragRight(s, e.frame, SEQ_LEFTSEL in e.flag, SEQ_RIGHTSEL in e.flag));
      offset := Some(r[e.id].EndDisp() - s.EndDisp());
    }
  }

  /** The slot loop of flushTransSeq, keeping the offset of largest magnitude. */
  method FlushSlots(h: Host, base: Seqbase, td: array<TransEntry>) returns (r: Seqbase, maxOffset: int)
    requires SlotsIn(td[..], base)
    ensures r == FlushAll(h, base, td[..]).0
    ensures maxOffset == MaxAbs(FlushAll(h, base, td[..]).1)
  {
    r := base;
    maxOffset := 0;
    var a := 0;
    ghost var offsets: seq<int> := [];
    while a < td.Length
      invariant 0 <= a <= td.Length
      invariant SlotsIn(td[..a], base)
      invariant (r, offsets) == FlushAll(h, base, td[..a])
      invariant maxOffset == MaxAbs(offsets)
    {
      FlushAllStep(h, base, td[..], a);
      assert td[..][..a] == td[..a] && td[..][..a + 1] == td[..a + 1] && td[..][a] == td[a];
      var offset;
      r, offset := FlushOne(h, r, td[a]);
      if offset.Some? {
        MaxAbsStep(offsets, offset.value);
        if Abs(offset.value) > Abs(maxOffset) {
          maxOffset := offset.value;
        }
        offsets := offsets + [offset.value];
      }
      a := a + 1;
    }
    assert td[..a] == td[..];
  }

  lemma WithInputsStep(order: seq<StripId>, base: Seqbase, i: nat)
    requires ListedIn(order, base) && i < |order|
    ensures ListedIn(order[..i], base) && ListedIn(order[..i + 1], base)
    ensures WithInputs(order[..i + 1], base) ==
      WithInputs(order[..i], base) + (if base[order[i]].HasInputs() then [order[i]] else [])
  {
    assert order[..i + 1][..i] == order[..i];
  }

  /** Retiming changes placements and flags only, so which strips have an input stays as it was. */
  lemma FoldKeepsInputs(h: Host, base: Seqbase, order: seq<StripId>, id: StripId)
    requires ListedIn(order, base) && id in base
    ensures Fold(h, EffectUpdate, base, order)[id].HasInputs() == base[id].HasInputs()
  {
    FoldKeepsFlags(h, EffectUpdate, base, order);
  }

  /** One more strip of the list: retimed when it has an input, which the retiming before it keeps. */
  lemma UpdateListedStep(h: Host, base: Seqbase, order: seq<StripId>, i: nat)
    requires ListedIn(order, base) && i < |order|
    ensures ListedIn(order[..i], base) && ListedIn(WithInputs(order[..i], base), base)
    ensures Fold(h, EffectUpdate, base, WithInputs(order[..i], base))[order[i]].HasInputs() == base[order[i]].HasInputs()
    ensures Fold(h, EffectUpdate, base, WithInputs(order[..i + 1], base)) ==
      if base[order[i]].HasInputs() then Step(h, EffectUpdate, Fold(h, EffectUpdate, base, WithInputs(order[..i], base)), order[i])
      else Fold(h, EffectUpdate, base, WithInputs(order[..i], base))
  {
    var pre := WithInputs(order[..i], base);
    WithInputsStep(order, base, i);
    FoldKeepsInputs(h, base, pre, order[i]);
    if base[order[i]].HasInputs() {
      FoldAppend(h, EffectUpdate, base, pre, order[i]);
    } else {
      assert pre + [] == pre;
    }
  }

  /** The list-order loop retiming every strip with an input. */
  method UpdateListed(h: Host, base: Seqbase, order: seq<StripId>) returns (r: Seqbase)
    requires ListedIn(order, base)
    ensures r == Fold(h, EffectUpdate, base, WithInputs(order, base))
  {
    r := base;
    var i := 0;
    while i < |order|
      invariant 0 <= i <= |order|
      invariant r == Fold(h, EffectUpdate, base, WithInputs(order[..i], base))
    {
      UpdateListedStep(h, base, order, i);
      if r[order[i]].HasInputs() {
        r := Step(h, EffectUpdate, r, order[i]);
      }
      i := i + 1;
    }
    assert order[..i] == order;
  }

  /** SEQ_OVERLAP after marking: set on the marked strips exactly where they overlap; the others untouched. */
  lemma MarkOverlapFlags(h: Host, base: Seqbase, done: set<StripId>)
    ensures var r := MarkOverlap(h, base, done);
      && (forall id :: id in done && id in base ==> (SEQ_OVERLAP in r[id].flag <==> h.testOverlap(Places(r), id)))
      && (forall id :: id in base && id !in done ==> r[id] == base[id])
  {
  }

  /** The first two stages of flushTransSeq: slots written back, then strips with inputs retimed. */
  method FlushAndRetime(h: Host, mode: TransformMode, base: Seqbase, order: seq<StripId>, td: array<TransEntry>)
    returns (r: Seqbase, maxOffset: int)
    requires SlotsIn(td[..], base) && ListedIn(order, base)
    ensures maxOffset == MaxAbs(FlushAll(h, base, td[..]).1)
    ensures var flushed := FlushAll(h, base, td[..]).0;
      r == if mode == SeqSlide || mode == TimeTranslate then Fold(h, EffectUpdate, flushed, WithInputs(order, flushed))
           else flushed
    ensures r.Keys == base.Keys && PlaceOnly(base, r)
  {
    r, maxOffset := FlushSlots(h, base, td);
    FlushKeepsStrips(h, base, td[..]);
    ghost var flushed := r;
    if mode == SeqSlide || mode == TimeTranslate {
      r := UpdateListed(h, r, order);
      FoldKeepsFlags(h, EffectUpdate, flushed, WithInputs(order, flushed));
      PlaceOnlyTrans(base, flushed, r);
    }
  }

  /**
   * flushTransSeq: writes every slot back, retimes strips with inputs (in
   * slide and translate modes), then sets SEQ_OVERLAP on each transformed
   * strip exactly when it overlaps another strip where it now sits.
   * Returns max_offset, the offset of largest magnitude the slots reported.
   */
  method FlushTransSeq(h: Host, mode: TransformMode, base: Seqbase, order: seq<StripId>, td: array<TransEntry>)
    returns (r: Seqbase, maxOffset: int, ghost transformed: set<StripId>)
    requires SlotsIn(td[..], base) && ListedIn(order, base)
    ensures maxOffset == MaxAbs(FlushAll(h, base, td[..]).1)
    ensures var flushed := FlushAll(h, base, td[..]).0;
      var updated := if mode == SeqSlide || mode == TimeTranslate then Fold(h, EffectUpdate, flushed, WithInputs(order, flushed))
                     else flushed;
      transformed == ExpandEffectChain(h, updated, BufferStrips(td[..])) &&
      r == MarkOverlap(h, updated, transformed)
    ensures r.Keys == base.Keys
    ensures forall id :: id in transformed ==> (SEQ_OVERLAP in r[id].flag <==> h.testOverlap(Places(r), id))
    ensures forall id :: id in base && id !in transformed ==> r[id].flag == base[id].flag
  {
    var cur;
    cur, maxOffset := FlushAndRetime(h, mode, base, order, td);
    var collection := CollectionFromTransData(td);
    assert collection == BufferStrips(td[..]);
    var strips := ExpandEffectChain(h, cur, collection);
    transformed := strips;
    r := MarkEach(h, cur, strips);
    MarkOverlapFlags(h, cur, strips);
  }


  /**
   * transform_convert_sequencer_channel_clamp on a whole-channel offset:
   * when the selection would rise above MAXSEQ it is pulled down to
   * MAXSEQ, when it would sink below channel 1 it is pulled up to 1; both
   * excesses are computed from the requested offset.
   */
  function ChannelClamp(lo: int, hi: int, offset: int): (r: int)
    ensures 1 <= lo <= hi <= MAXSEQ ==> 1 <= lo + r && hi + r <= MAXSEQ
    ensures 1 <= lo <= hi <= MAXSEQ && 1 <= lo + offset && hi + offset <= MAXSEQ ==> r == offset
    ensures 1 <= lo <= hi <= MAXSEQ ==> r == offset || hi + r == MAXSEQ || lo + r == 1
  {
    var minAfter := lo + offset;
    var maxAfter := hi + offset;
    var r1 := if maxAfter > MAXSEQ then offset - (maxAfter - MAXSEQ) else offset;
    if minAfter < 1 then r1 - (minAfter - 1) else r1
  }

  /** Clamping an offset that was already clamped changes nothing. */
  lemma ChannelClampIdempotent(lo: int, hi: int, offset: int)
    requires 1 <= lo <= hi <= MAXSEQ
    ensures ChannelClamp(lo, hi, ChannelClamp(lo, hi, offset)) == ChannelClamp(lo, hi, offset)
  {
  }

  /**
   * Without a selection the range keeps its initial values (MAXSEQ + 1
   * and 0): the clamp then leaves offsets up to MAXSEQ either way alone
   * and cuts larger ones down to MAXSEQ.
   */
  lemma ChannelClampEmptySelection(offset: int)
    ensures -MAXSEQ <= offset <= MAXSEQ ==> ChannelClamp(MAXSEQ + 1, 0, offset) == offset
    ensures offset > MAXSEQ ==> ChannelClamp(MAXSEQ + 1, 0, offset) == MAXSEQ
    ensures offset < -MAXSEQ ==> ChannelClamp(MAXSEQ + 1, 0, offset) == -MAXSEQ
  {
  }
}
