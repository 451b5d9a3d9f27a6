/**
 * Creation of the transform data for the sequencer: which strips take part
 * in a transform, with which flags, and how many entries each one gets in
 * the transform buffers (`SeqTransInfo`, `SeqTransCount`,
 * `SeqToTransData_build`).
 */
module SeqTransData {
  import opened SeqModel

  datatype TransformMode = TimeExtend | TimeTranslate | SeqSlide | OtherMode

  /** The parts of `TransInfo` these rules read: mode, frame side, current frame. */
  datatype TransContext = TransContext(mode: TransformMode, frameSide: char, cfra: int)

  /** What `SeqTransInfo` reports for one strip. */
  datatype TransInfo = TransInfo(count: nat, flag: Flags)

  const HANDLES: Flags := {SEQ_LEFTSEL, SEQ_RIGHTSEL}

  predicate BothHandles(f: Flags) { SEQ_LEFTSEL in f && SEQ_RIGHTSEL in f }

  /** The strip takes part in a transform at all. */
  predicate Eligible(h: Host, s: Strip) { s.Selected() && !h.isLocked(s) }

  /**
   * How many buffer entries a strip with transform flag `flag` receives:
   * one per selected handle, or one for the whole strip when no handle is
   * selected; none when the flag lacks SELECT.
   */
  function EntryCount(flag: Flags): (n: nat)
    ensures n <= 2
    ensures n == 0 <==> SELECT !in flag
    ensures n == 2 <==> SELECT in flag && BothHandles(flag)
  {
    if SELECT !in flag then 0
    else if SEQ_LEFTSEL !in flag && SEQ_RIGHTSEL !in flag then 1
    else (if SEQ_LEFTSEL in flag then 1 else 0) + (if SEQ_RIGHTSEL in flag then 1 else 0)
  }

  /**
   * The transform rule for one strip. The ensures clauses are the
   * promises the rule makes: ineligible strips contribute nothing; normal
   * mode keeps the strip's flag and asks for two entries exactly when both
   * handles are selected; extend mode never selects both handles and asks
   * for at most one entry; and in every case the count equals the number of
   * entries the flag calls for, so counting and filling agree.
   */
  function TransInfoOf(h: Host, t: TransContext, s: Strip): (r: TransInfo)
    ensures !Eligible(h, s) ==> r == TransInfo(0, {})
    ensures t.mode != TimeExtend && Eligible(h, s) ==>
      r.flag == s.flag && (r.count == 2 <==> BothHandles(s.flag)) && 1 <= r.count
    ensures t.mode == TimeExtend ==> r.count <= 1 && !BothHandles(r.flag)
    ensures r.count == EntryCount(r.flag)
  {
    if !Eligible(h, s) then TransInfo(0, {})
    else if t.mode == TimeExtend then
      var cleared := (s.flag + {SELECT}) - HANDLES;
      var left, right := h.leftHandle(s), h.rightHandle(s);
      if t.frameSide == 'R' then
        (if right <= t.cfra then TransInfo(0, {})
         else if left > t.cfra then TransInfo(1, cleared)
         else TransInfo(1, cleared + {SEQ_RIGHTSEL}))
      else
        (if left >= t.cfra then TransInfo(0, {})
         else if right < t.cfra then TransInfo(1, cleared)
         else TransInfo(1, cleared + {SEQ_LEFTSEL}))
    else
      TransInfo(if BothHandles(s.flag) then 2 else 1, s.flag)
  }

  /** Outside extend mode the rule sets the frame side to both ('B'). */
  function FrameSideAfter(t: TransContext): char
  {
    if t.mode == TimeExtend then t.frameSide else 'B'
  }

  /**
   * SeqTransInfo: writes the count and flag through its out-parameters and,
   * outside extend mode, sets the context's frame side to 'B'.
   */
  method SeqTransInfo(h: Host, t: TransContext, s: Strip) returns (count: nat, flag: Flags, frameSide: char)
    ensures TransInfo(count, flag) == TransInfoOf(h, t, s)
    ensures frameSide == FrameSideAfter(t)
  {
    frameSide := t.frameSide;
    if t.mode == TimeExtend {
      var left := h.leftHandle(s);
      var right := h.rightHandle(s);
      if !s.Selected() || h.isLocked(s) {
        count, flag := 0, {};
      } else {
        count := 1;
        flag := (s.flag + {SELECT}) - {SEQ_LEFTSEL, SEQ_RIGHTSEL};
        if t.frameSide == 'R' {
          if right <= t.cfra {
            count, flag := 0, {};
          } else if left > t.cfra {
          } else {
            flag := flag + {SEQ_RIGHTSEL};
          }
        } else {
          if left >= t.cfra {
            count, flag := 0, {};
          } else if right < t.cfra {
          } else {
            flag := flag + {SEQ_LEFTSEL};
          }
        }
      }
    } else {
      frameSide := 'B';
      if !s.Selected() || h.isLocked(s) {
        count, flag := 0, {};
      } else if SEQ_LEFTSEL in s.flag && SEQ_RIGHTSEL in s.flag {
        flag := s.flag;
        count := 2;
      } else {
        flag := s.flag;
        count := 1;
      }
    }
  }

  /** Every id of the list names a strip of the seqbase. */
  predicate ListedIn(order: seq<StripId>, base: Seqbase)
  {
    forall i :: 0 <= i < |order| ==> order[i] in base
  }

  /** Sum of the counts over the list (what SeqTransCount returns). */
  function TotalCount(h: Host, t: TransContext, order: seq<StripId>, base: Seqbase): nat
    requires ListedIn(order, base)
  {
    if order == [] then 0
    else TotalCount(h, t, order[..|order| - 1], base) + TransInfoOf(h, t, base[order[|order| - 1]]).count
  }

  /** A buffer entry: TransData, TransData2D and TransDataSeq of one slot together. */
  datatype TransEntry = TransEntry(
    id: StripId,         // TransDataSeq.seq
    flag: Flags,         // TransDataSeq.flag
    selFlag: nat,        // TransDataSeq.sel_flag: SELECT, SEQ_LEFTSEL or SEQ_RIGHTSEL
    frame: int,          // loc[0]
    channel: int,        // loc[1]
    startOffset: int)    // TransDataSeq.start_offset (zero from the allocation unless SELECT)

  /** SeqToTransData: one filled slot. */
  function MakeEntry(h: Host, id: StripId, s: Strip, flag: Flags, selFlag: nat): (e: TransEntry)
    requires selFlag == SELECT || selFlag == SEQ_LEFTSEL || selFlag == SEQ_RIGHTSEL
    ensures e.id == id && e.flag == flag && e.selFlag == selFlag && e.channel == s.Machine()
    ensures e.frame == (if selFlag == SEQ_RIGHTSEL then h.rightHandle(s) else h.leftHandle(s))
    ensures e.startOffset == (if selFlag == SELECT then h.leftHandle(s) - s.place.start else 0)
  {
    if selFlag == SELECT then
      TransEntry(id, flag, selFlag, h.leftHandle(s), s.Machine(), h.leftHandle(s) - s.place.start)
    else if selFlag == SEQ_LEFTSEL then
      TransEntry(id, flag, selFlag, h.leftHandle(s), s.Machine(), 0)
    else
      TransEntry(id, flag, selFlag, h.rightHandle(s), s.Machine(), 0)
  }

  /** The slots SeqToTransData_build fills for one strip, given its transform flag. */
  function EntriesFor(h: Host, id: StripId, s: Strip, flag: Flags): (es: seq<TransEntry>)
    ensures |es| == EntryCount(flag)
    ensures forall k :: 0 <= k < |es| ==> es[k].id == id && es[k].flag == flag
  {
    if SELECT !in flag then []
    else if SEQ_LEFTSEL in flag || SEQ_RIGHTSEL in flag then
      (if SEQ_LEFTSEL in flag then [MakeEntry(h, id, s, flag, SEQ_LEFTSEL)] else []) +
      (if SEQ_RIGHTSEL in flag then [MakeEntry(h, id, s, flag, SEQ_RIGHTSEL)] else [])
    else [MakeEntry(h, id, s, flag, SELECT)]
  }

  /** The whole buffer content, in list order. */
  function Entries(h: Host, t: TransContext, order: seq<StripId>, base: Seqbase): seq<TransEntry>
    requires ListedIn(order, base)
  {
    if order == [] then []
    else
      var id := order[|order| - 1];
      Entries(h, t, order[..|order| - 1], base) + EntriesFor(h, id, base[id], TransInfoOf(h, t, base[id]).flag)
  }

  /**
   * The number of slots the build writes equals the count computed for the
   * same strips and mode, so the buffer allocated from that count is filled
   * exactly.
   */
  lemma {:induction false} EntriesMatchCount(h: Host, t: TransContext, order: seq<StripId>, base: Seqbase)
    requires ListedIn(order, base)
    ensures |Entries(h, t, order, base)| == TotalCount(h, t, order, base)
  {
    if order != [] {
      EntriesMatchCount(h, t, order[..|order| - 1], base);
    }
  }

  /** Each slot describes a strip of the list with one of the three selection kinds. */
  lemma {:induction false} EntriesWellFormed(h: Host, t: TransContext, order: seq<StripId>, base: Seqbase)
    requires ListedIn(order, base)
    ensures forall e :: e in Entries(h, t, order, base) ==>
      e.id in order && (e.selFlag == SELECT || e.selFlag == SEQ_LEFTSEL || e.selFlag == SEQ_RIGHTSEL)
  {
    if order != [] {
      EntriesWellFormed(h, t, order[..|order| - 1], base);
      forall e | e in Entries(h, t, order, base)
        ensures e.id in order && (e.selFlag == SELECT || e.selFlag == SEQ_LEFTSEL || e.selFlag == SEQ_RIGHTSEL)
      {
        var id := order[|order| - 1];
        if e in Entries(h, t, order[..|order| - 1], base) {
          assert e.id in order[..|order| - 1];
        } else {
          assert e in EntriesFor(h, id, base[id], TransInfoOf(h, t, base[id]).flag);
        }
      }
    }
  }

  lemma {:induction false} TotalCountPrefix(h: Host, t: TransContext, order: seq<StripId>, base: Seqbase, i: nat)
    requires ListedIn(order, base) && i <= |order|
    ensures TotalCount(h, t, order[..i], base) <= TotalCount(h, t, order, base)
  {
    if i < |order| {
      TotalCountPrefix(h, t, order[..|order| - 1], base, i);
      assert order[..|order| - 1][..i] == order[..i];
    } else {
      assert order[..i] == order;
    }
  }

  /** Outside extend mode the rule does not read the frame side. */
  predicate SameRule(t: TransContext, t0: TransContext)
  {
    t == t0 || (t0.mode != TimeExtend && t == t0.(frameSide := 'B'))
  }

  /** Extending the prefix by one strip adds that strip's count and slots. */
  lemma PrefixStep(h: Host, t: TransContext, order: seq<StripId>, base: Seqbase, i: nat)
    requires ListedIn(order, base) && i < |order|
    ensures ListedIn(order[..i], base) && ListedIn(order[..i + 1], base)
    ensures TotalCount(h, t, order[..i + 1], base) ==
      TotalCount(h, t, order[..i], base) + TransInfoOf(h, t, base[order[i]]).count
    ensures Entries(h, t, order[..i + 1], base) ==
      Entries(h, t, order[..i], base) + EntriesFor(h, order[i], base[order[i]], TransInfoOf(h, t, base[order[i]]).flag)
  {
    assert order[..i + 1][..i] == order[..i];
  }

  /** The frame side a SameRule context carries does not change the rule. */
  lemma SameRuleInfo(h: Host, t: TransContext, t0: TransContext, s: Strip)
    requires SameRule(t, t0)
    ensures TransInfoOf(h, t, s) == TransInfoOf(h, t0, s)
  {
  }

  /** SeqTransCount: the loop over the list summing the counts. */
  method SeqTransCount(h: Host, t0: TransContext, order: seq<StripId>, base: Seqbase)
    returns (tot: nat, frameSide: char)
    requires ListedIn(order, base)
    ensures tot == TotalCount(h, t0, order, base)
    ensures frameSide == if order == [] then t0.frameSide else FrameSideAfter(t0)
  {
    var t := t0;
    tot := 0;
    var i := 0;
    while i < |order|
      invariant 0 <= i <= |order|
      invariant SameRule(t, t0)
      invariant i == 0 ==> t == t0
      invariant i > 0 ==> t.frameSide == FrameSideAfter(t0)
      invariant tot == TotalCount(h, t0, order[..i], base)
    {
      var count, flag, side := SeqTransInfo(h, t, base[order[i]]);
      assert order[..i + 1][..i] == order[..i];
      tot := tot + count;
      t := t.(frameSide := side);
      i := i + 1;
    }
    assert order[..i] == order;
    frameSide := t.frameSide;
  }

  /**
   * The body of the build loop for one strip: writes its slots at `pos`
   * onwards (left handle before right handle) and returns the next free
   * position; nothing before `pos` changes.
   */
  method FillStrip(h: Host, id: StripId, s: Strip, flag: Flags, td: array<TransEntry>, pos: nat) returns (next: nat)
    requires pos + EntryCount(flag) <= td.Length
    modifies td
    ensures next == pos + EntryCount(flag)
    ensures td[..next] == old(td[..pos]) + EntriesFor(h, id, s, flag)
  {
    next := pos;
    if SELECT in flag {
      if SEQ_LEFTSEL in flag || SEQ_RIGHTSEL in flag {
        if SEQ_LEFTSEL in flag {
          td[next] := MakeEntry(h, id, s, flag, SEQ_LEFTSEL);
          next := next + 1;
        }
        if SEQ_RIGHTSEL in flag {
          td[next] := MakeEntry(h, id, s, flag, SEQ_RIGHTSEL);
          next := next + 1;
        }
      } else {
        td[next] := MakeEntry(h, id, s, flag, SELECT);
        next := next + 1;
      }
    }
  }

  /**
   * SeqToTransData_build: fills the buffer slot by slot, advancing one
   * position per written entry, and returns how many it wrote. The buffer
   * has the size SeqTransCount computed, and it ends up exactly full.
   */
  method SeqToTransDataBuild(h: Host, t0: TransContext, order: seq<StripId>, base: Seqbase, td: array<TransEntry>)
    returns (tot: nat)
    requires ListedIn(order, base)
    requires td.Length == TotalCount(h, t0, order, base)
    modifies td
    ensures tot == td.Length
    ensures td[..] == Entries(h, t0, order, base)
  {
    var t := t0;
    tot := 0;
    var i := 0;
    while i < |order|
      invariant 0 <= i <= |order|
      invariant SameRule(t, t0)
      invariant tot == TotalCount(h, t0, order[..i], base) <= td.Length
      invariant td[..tot] == Entries(h, t0, order[..i], base)
    {
      var id := order[i];
      var s := base[id];
      var count, flag, side := SeqTransInfo(h, t, s);
      SameRuleInfo(h, t, t0, s);
      t := t.(frameSide := side);
      PrefixStep(h, t0, order, base, i);
      TotalCountPrefix(h, t0, order, base, i + 1);
      tot := FillStrip(h, id, s, flag, td, tot);
      i := i + 1;
    }
    assert order[..i] == order;
  }

  /**
   * The selection's channel range as createTransSeqData records it: the
   * lowest and highest channel among selected strips, starting from
   * MAXSEQ + 1 and from the zeroed allocation.
   */
  method SelectionChannelRange(order: seq<StripId>, base: Seqbase) returns (lo: int, hi: int)
    requires ListedIn(order, base)
    ensures lo <= MAXSEQ + 1 && 0 <= hi
    ensures forall i :: 0 <= i < |order| && base[order[i]].Selected() ==>
      lo <= base[order[i]].Machine() && base[order[i]].Machine() <= hi
    ensures lo == MAXSEQ + 1 || exists i :: 0 <= i < |order| && base[order[i]].Selected() && base[order[i]].Machine() == lo
    ensures hi == 0 || exists i :: 0 <= i < |order| && base[order[i]].Selected() && base[order[i]].Machine() == hi
  {
    lo, hi := MAXSEQ + 1, 0;
    var i := 0;
    while i < |order|
      invariant 0 <= i <= |order|
      invariant lo <= MAXSEQ + 1 && 0 <= hi
      invariant forall j :: 0 <= j < i && base[order[j]].Selected() ==>
        lo <= base[order[j]].Machine() && base[order[j]].Machine() <= hi
      invariant lo == MAXSEQ + 1 || exists j :: 0 <= j < i && base[order[j]].Selected() && base[order[j]].Machine() == lo
      invariant hi == 0 || exists j :: 0 <= j < i && base[order[j]].Selected() && base[order[j]].Machine() == hi
    {
      var s := base[order[i]];
      if s.Selected() {
        lo := if s.Machine() < lo then s.Machine() else lo;
        hi := if s.Machine() > hi then s.Machine() else hi;
      }
      i := i + 1;
    }
  }
}
