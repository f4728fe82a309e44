/**
 * How the two halves of src/controller.rs fit together: every section runner
 * sends its blocks into the channel the status controller reads, so what the
 * runners publish is what the controller receives. These lemmas state that
 * the runners' blocks are routed to the runner's own slot, and that a
 * controller fed only such blocks never panics and leaves its barrier once
 * every section has reported.
 */
module Pipeline {
  import opened Config
  import opened Protocol
  import opened Controller
  import SectionRunner

  /** The identities among the arrivals. */
  function Reported(arrivals: seq<Arrival>): set<SectionId> {
    set i | 0 <= i < |arrivals| :: BlockId(arrivals[i].block)
  }

  /** Every block the runner of section `i` publishes carries the identity
      the index was built with for that section; with distinct names the
      index sends it to slot `i`. */
  lemma RunnerBlocksRouted(sections: seq<Section>, i: nat, outcomes: seq<SectionRunner.Outcome>)
    requires i < |sections|
    ensures var published := SectionRunner.Cycles(sections[i], SectionRunner.Fresh(), outcomes).published;
      forall j :: 0 <= j < |published| ==>
        && BlockId(published[j]) == IdOf(sections[i])
        && BlockId(published[j]) in BuildIndex(sections)
        && (DistinctNames(sections) ==> BuildIndex(sections)[BlockId(published[j])] == i)
  {
    var section := sections[i];
    var published := SectionRunner.Cycles(section, SectionRunner.Fresh(), outcomes).published;
    SectionRunner.CyclesKeep(section, outcomes);
    SectionIndex(sections);
    if DistinctNames(sections) {
      IndexOfDistinct(sections);
    }
    forall j | 0 <= j < |published|
      ensures BlockId(published[j]) == IdOf(section)
    {
      var b := SectionRunner.SectionBlock(section, published[j].fullText);
      assert published[j] == b;
      assert b.name == "command" && b.instance == section.name;
    }
  }

  /** A controller fed only blocks of configured sections, whose names are
      distinct, never panics; while it is still in its barrier its buffer
      holds exactly the identities reported so far, fewer than the index
      has. */
  lemma {:induction false} KnownArrivals(sections: seq<Section>, minInterval: nat, start: nat, arrivals: seq<Arrival>)
    requires |sections| > 0 && DistinctNames(sections)
    requires forall i :: 0 <= i < |arrivals| ==> BlockId(arrivals[i].block) in BuildIndex(sections)
    ensures var r := Feed(sections, minInterval, Started(start), arrivals);
      && !r.phase.Panicked?
      && (r.phase.Barrier? ==>
            r.initialData.Keys == Reported(arrivals) && |r.initialData| < |BuildIndex(sections)|)
    decreases |arrivals|
  {
    if arrivals == [] {
      assert Reported(arrivals) == {};
    } else {
      var n := |arrivals| - 1;
      var prefix := arrivals[..n];
      assert forall i :: 0 <= i < n ==> prefix[i] == arrivals[i];
      KnownArrivals(sections, minInterval, start, prefix);
      FeedKeeps(sections, minInterval, start, prefix);
      ReportedGrows(arrivals);
      KnownStep(sections, minInterval, start, Feed(sections, minInterval, Started(start), prefix), arrivals[n]);
    }
  }

  /** One step of a controller that has not panicked, with a known identity
      and distinct names, does not panic either. */
  lemma KnownStep(sections: seq<Section>, minInterval: nat, start: nat, st: AggState, a: Arrival)
    requires |sections| > 0 && DistinctNames(sections)
    requires Invariant(sections, minInterval, start, st) && !st.phase.Panicked?
    requires st.phase.Barrier? ==> st.initialData.Keys <= BuildIndex(sections).Keys && |st.initialData| < |BuildIndex(sections)|
    requires BlockId(a.block) in BuildIndex(sections)
    ensures var r := Step(sections, minInterval, st, a);
      && !r.phase.Panicked?
      && (r.phase.Barrier? ==>
            st.phase.Barrier?
            && r.initialData.Keys == st.initialData.Keys + {BlockId(a.block)}
            && |r.initialData| < |BuildIndex(sections)|)
  {
    if st.phase.Barrier? {
      BarrierKnown(sections, minInterval, st, a);
    } else {
      SectionIndex(sections);
      assert |st.blocks| == |BuildIndex(sections)| == |sections|;
      assert Step(sections, minInterval, st, a).phase.Steady?;
    }
  }

  /** The identities reported grow by the last arrival's. */
  lemma ReportedGrows(arrivals: seq<Arrival>)
    requires |arrivals| > 0
    ensures var n := |arrivals| - 1;
      Reported(arrivals) == Reported(arrivals[..n]) + {BlockId(arrivals[n].block)}
  {
    var n := |arrivals| - 1;
    var prefix := arrivals[..n];
    assert forall i :: 0 <= i < n ==> prefix[i] == arrivals[i];
    forall k | k in Reported(arrivals)
      ensures k in Reported(prefix) + {BlockId(arrivals[n].block)}
    {
      var i :| 0 <= i < |arrivals| && BlockId(arrivals[i].block) == k;
      if i < n {
        assert BlockId(prefix[i].block) == k;
      }
    }
  }

  /** A barrier step with a known identity either stays in the barrier with
      the block buffered and the buffer still short of the index, or leaves
      it. */
  lemma BarrierKnown(sections: seq<Section>, minInterval: nat, st: AggState, a: Arrival)
    requires st.phase.Barrier? && st.initialData.Keys <= BuildIndex(sections).Keys
    requires BlockId(a.block) in BuildIndex(sections)
    ensures var r := Step(sections, minInterval, st, a);
      && (r.phase.Barrier? || r.phase.Steady?)
      && (r.phase.Barrier? ==>
            r.initialData.Keys == st.initialData.Keys + {BlockId(a.block)}
            && |r.initialData| < |BuildIndex(sections)|)
  {
    var index := BuildIndex(sections);
    var data := st.initialData[BlockId(a.block) := a.block];
    assert data.Keys == st.initialData.Keys + {BlockId(a.block)};
    if |data| < |index| {
      assert Step(sections, minInterval, st, a) == st.(initialData := data);
    } else {
      assert data.Keys <= index.Keys;
      assert Step(sections, minInterval, st, a).phase.Steady?;
    }
  }

  /** A controller fed only blocks of configured sections, whatever their
      names, is in its barrier only while its buffer holds exactly the
      identities reported so far, fewer than the index has. */
  lemma {:induction false} BarrierBuffer(sections: seq<Section>, minInterval: nat, start: nat, arrivals: seq<Arrival>)
    requires |sections| > 0
    requires forall i :: 0 <= i < |arrivals| ==> BlockId(arrivals[i].block) in BuildIndex(sections)
    ensures var r := Feed(sections, minInterval, Started(start), arrivals);
      r.phase.Barrier? ==> r.initialData.Keys == Reported(arrivals) && |r.initialData| < |BuildIndex(sections)|
    decreases |arrivals|
  {
    if arrivals == [] {
      SectionIndex(sections);
      assert IdOf(sections[0]) in BuildIndex(sections);
      assert Reported(arrivals) == {};
    } else {
      var n := |arrivals| - 1;
      var prefix := arrivals[..n];
      assert forall i :: 0 <= i < n ==> prefix[i] == arrivals[i];
      BarrierBuffer(sections, minInterval, start, prefix);
      ReportedGrows(arrivals);
      var st := Feed(sections, minInterval, Started(start), prefix);
      assert Feed(sections, minInterval, Started(start), arrivals) == Step(sections, minInterval, st, arrivals[n]);
      assert Reported(prefix) <= BuildIndex(sections).Keys;
      BufferStep(sections, minInterval, st, arrivals[n], Reported(prefix));
    }
  }

  /** One step of `BarrierBuffer`: the buffer grows by the known identity of
      the block, and a controller past its barrier never returns to it. */
  lemma BufferStep(sections: seq<Section>, minInterval: nat, st: AggState, a: Arrival, reported: set<SectionId>)
    requires reported <= BuildIndex(sections).Keys && BlockId(a.block) in BuildIndex(sections)
    requires st.phase.Barrier? ==> st.initialData.Keys == reported && |st.initialData| < |BuildIndex(sections)|
    ensures var r := Step(sections, minInterval, st, a);
      r.phase.Barrier? ==> r.initialData.Keys == reported + {BlockId(a.block)} && |r.initialData| < |BuildIndex(sections)|
  {
    if st.phase.Barrier? {
      BarrierKnown(sections, minInterval, st, a);
    } else {
      StaysOutOfBarrier(sections, minInterval, st, a);
    }
  }

  /** A controller past its barrier, running or panicked, stays past it. */
  lemma StaysOutOfBarrier(sections: seq<Section>, minInterval: nat, st: AggState, a: Arrival)
    requires !st.phase.Barrier?
    ensures !Step(sections, minInterval, st, a).phase.Barrier?
  {
  }

  /** Once every configured section has reported, and only configured
      sections have, the barrier is over, whatever the names: the buffer
      cannot hold every indexed identity and still be smaller than the
      index. */
  lemma LeavesBarrier(sections: seq<Section>, minInterval: nat, start: nat, arrivals: seq<Arrival>)
    requires |sections| > 0
    requires forall i :: 0 <= i < |arrivals| ==> BlockId(arrivals[i].block) in BuildIndex(sections)
    requires forall i :: 0 <= i < |sections| ==> IdOf(sections[i]) in Reported(arrivals)
    ensures !Feed(sections, minInterval, Started(start), arrivals).phase.Barrier?
  {
    var index := BuildIndex(sections);
    BarrierBuffer(sections, minInterval, start, arrivals);
    SectionIndex(sections);
    assert index.Keys <= Reported(arrivals);
    SubsetSize(index.Keys, Reported(arrivals));
  }

  /** With distinct names, once every configured section has reported, and
      only configured sections have, the controller is past its barrier and
      has not panicked: the first status has been sent. */
  lemma AllReported(sections: seq<Section>, minInterval: nat, start: nat, arrivals: seq<Arrival>)
    requires |sections| > 0 && DistinctNames(sections)
    requires forall i :: 0 <= i < |arrivals| ==> BlockId(arrivals[i].block) in BuildIndex(sections)
    requires forall i :: 0 <= i < |sections| ==> IdOf(sections[i]) in Reported(arrivals)
    ensures Feed(sections, minInterval, Started(start), arrivals).phase.Steady?
  {
    var index := BuildIndex(sections);
    var r := Feed(sections, minInterval, Started(start), arrivals);
    KnownArrivals(sections, minInterval, start, arrivals);
    SectionIndex(sections);
    assert index.Keys <= Reported(arrivals);
    SubsetSize(index.Keys, Reported(arrivals));
  }

  /** Two sections with the same name share one identity: the index keeps
      the later position, 1, but the status has a single slot, so the first
      block after the barrier is out of range and the controller panics. */
  lemma DuplicateNamesOverflow(s: Section, minInterval: nat, start: nat, b1: Block, b2: Block, t1: nat, t2: nat)
    requires BlockId(b1) == IdOf(s) && BlockId(b2) == IdOf(s)
    ensures Feed([s, s], minInterval, Started(start), [Arrival(b1, t1), Arrival(b2, t2)]).phase == Panicked(SlotOutOfRange)
  {
    var sections := [s, s];
    var arrivals := [Arrival(b1, t1), Arrival(b2, t2)];
    assert arrivals[..1] == [Arrival(b1, t1)] && arrivals[..1][..0] == [];
    var st := Step(sections, minInterval, Started(start), Arrival(b1, t1));
    assert Feed(sections, minInterval, Started(start), arrivals[..1]) == st;
    PairIndex(s);
    FirstOfPair(s, minInterval, start, b1, t1);
    assert Feed(sections, minInterval, Started(start), arrivals) == Step(sections, minInterval, st, Arrival(b2, t2));
  }

  /** The index of two sections of one name: one key, at the later position. */
  lemma PairIndex(s: Section)
    ensures BuildIndex([s, s]) == map[IdOf(s) := 1]
  {
    var ids := Ids([s, s]);
    assert ids == [IdOf(s), IdOf(s)];
    assert Collect(ids, 0) == map[];
    assert Collect(ids, 1) == map[IdOf(s) := 0];
    assert Collect(ids, 2) == map[IdOf(s) := 0][IdOf(s) := 1];
  }

  /** With two sections of one name the first block ends the barrier with a
      status of one slot. */
  lemma FirstOfPair(s: Section, minInterval: nat, start: nat, b: Block, t1: nat)
    requires BlockId(b) == IdOf(s)
    ensures var r := Step([s, s], minInterval, Started(start), Arrival(b, t1));
      r.phase.Steady? && |r.blocks| == 1
  {
    PairIndex(s);
    var index := BuildIndex([s, s]);
    assert |index| == 1;
    BarrierExit([s, s], minInterval, Started(start), Arrival(b, t1));
    assert map[][BlockId(b) := b].Keys == index.Keys;
  }

  /** The index of sections x, x, y with two distinct names: x at its later
      position 1, y at 2. */
  lemma TripleIndex(x: Section, y: Section)
    requires x.name != y.name
    ensures BuildIndex([x, x, y]) == map[IdOf(x) := 1, IdOf(y) := 2]
  {
    var ids := Ids([x, x, y]);
    assert ids == [IdOf(x), IdOf(x), IdOf(y)];
    assert Collect(ids, 0) == map[];
    assert Collect(ids, 1) == map[IdOf(x) := 0];
    assert Collect(ids, 2) == map[IdOf(x) := 1];
    assert Collect(ids, 3) == map[IdOf(x) := 1][IdOf(y) := 2];
  }

  /** With sections x, x, y the status has two slots, [x, y]; a later block of
      x goes to x's index entry, position 1, and so replaces y's block: the
      controller runs on with two blocks of x and none of y, until y's next
      block (see `DuplicateNamesStrand`). */
  lemma DuplicateNamesMisroute(x: Section, y: Section, minInterval: nat, start: nat,
                               xb: Block, yb: Block, xb2: Block, t1: nat, t2: nat, t3: nat)
    requires x.name != y.name
    requires BlockId(xb) == IdOf(x) && BlockId(xb2) == IdOf(x) && BlockId(yb) == IdOf(y)
    ensures var r := Feed([x, x, y], minInterval, Started(start), [Arrival(xb, t1), Arrival(yb, t2), Arrival(xb2, t3)]);
      r.phase.Steady? && r.blocks == [xb, xb2]
  {
    var sections := [x, x, y];
    var one := [Arrival(xb, t1)];
    var two := one + [Arrival(yb, t2)];
    var three := two + [Arrival(xb2, t3)];
    assert three == [Arrival(xb, t1), Arrival(yb, t2), Arrival(xb2, t3)];
    assert three[..2] == two && two[..1] == one && one[..0] == [];
    var st1 := Step(sections, minInterval, Started(start), Arrival(xb, t1));
    var st2 := Step(sections, minInterval, st1, Arrival(yb, t2));
    assert Feed(sections, minInterval, Started(start), one) == st1;
    assert Feed(sections, minInterval, Started(start), two) == st2;
    assert Feed(sections, minInterval, Started(start), three) == Step(sections, minInterval, st2, Arrival(xb2, t3));
    FirstStatusOfTriple(x, y, minInterval, start, xb, yb, t1, t2);
    TripleIndex(x, y);
    assert st2.blocks[1 := xb2] == [xb, xb2];
  }

  /** With sections x, x, y, y's entry is position 2 but the status has two
      slots: the first block of y after the barrier is out of range and the
      controller panics. */
  lemma DuplicateNamesStrand(x: Section, y: Section, minInterval: nat, start: nat,
                             xb: Block, yb: Block, yb2: Block, t1: nat, t2: nat, t3: nat)
    requires x.name != y.name
    requires BlockId(xb) == IdOf(x) && BlockId(yb) == IdOf(y) && BlockId(yb2) == IdOf(y)
    ensures Feed([x, x, y], minInterval, Started(start), [Arrival(xb, t1), Arrival(yb, t2), Arrival(yb2, t3)]).phase
         == Panicked(SlotOutOfRange)
  {
    var sections := [x, x, y];
    var one := [Arrival(xb, t1)];
    var two := one + [Arrival(yb, t2)];
    var three := two + [Arrival(yb2, t3)];
    assert three == [Arrival(xb, t1), Arrival(yb, t2), Arrival(yb2, t3)];
    assert three[..2] == two && two[..1] == one && one[..0] == [];
    var st1 := Step(sections, minInterval, Started(start), Arrival(xb, t1));
    var st2 := Step(sections, minInterval, st1, Arrival(yb, t2));
    assert Feed(sections, minInterval, Started(start), one) == st1;
    assert Feed(sections, minInterval, Started(start), two) == st2;
    assert Feed(sections, minInterval, Started(start), three) == Step(sections, minInterval, st2, Arrival(yb2, t3));
    FirstStatusOfTriple(x, y, minInterval, start, xb, yb, t1, t2);
    TripleIndex(x, y);
    assert BuildIndex(sections)[IdOf(y)] == |st2.blocks|;
  }

  /** With sections x, x, y, blocks of x and of y end the barrier with the
      status [x's block, y's block]. */
  lemma FirstStatusOfTriple(x: Section, y: Section, minInterval: nat, start: nat, xb: Block, yb: Block, t1: nat, t2: nat)
    requires x.name != y.name
    requires BlockId(xb) == IdOf(x) && BlockId(yb) == IdOf(y)
    ensures var st1 := Step([x, x, y], minInterval, Started(start), Arrival(xb, t1));
      var st2 := Step([x, x, y], minInterval, st1, Arrival(yb, t2));
      st2.phase.Steady? && st2.blocks == [xb, yb]
  {
    var sections := [x, x, y];
    TripleIndex(x, y);
    var st1 := Step(sections, minInterval, Started(start), Arrival(xb, t1));
    assert st1 == Started(start).(initialData := map[IdOf(x) := xb]);
    SecondOfTriple(x, y, minInterval, st1, xb, yb, t2);
  }

  /** The block of y on a buffer holding x's block fills it, and the status
      sorts x's block before y's. */
  lemma SecondOfTriple(x: Section, y: Section, minInterval: nat, st1: AggState, xb: Block, yb: Block, t2: nat)
    requires x.name != y.name && BlockId(xb) == IdOf(x) && BlockId(yb) == IdOf(y)
    requires st1.phase.Barrier? && st1.blocks == [] && st1.initialData == map[IdOf(x) := xb]
    ensures var st2 := Step([x, x, y], minInterval, st1, Arrival(yb, t2));
      st2.phase.Steady? && st2.blocks == [xb, yb]
  {
    var sections := [x, x, y];
    TripleIndex(x, y);
    assert IdOf(x) != IdOf(y);
    var data := map[IdOf(x) := xb][IdOf(y) := yb];
    assert data.Keys == {IdOf(x), IdOf(y)} == BuildIndex(sections).Keys;
    assert |data| == 2;
    var blocks := Materialize(sections, data);
    assert Step(sections, minInterval, st1, Arrival(yb, t2))
        == AggState(Steady, map[], [] + blocks, st1.sent + [StatusEmission([] + blocks, t2)], t2);
    TripleSorted(x, y, xb, yb);
    assert [] + blocks == blocks;
  }

  /** With sections x, x, y the buffer {x: xb, y: yb} becomes [xb, yb]. */
  lemma TripleSorted(x: Section, y: Section, xb: Block, yb: Block)
    requires x.name != y.name && BlockId(xb) == IdOf(x) && BlockId(yb) == IdOf(y)
    ensures Materialize([x, x, y], map[IdOf(x) := xb][IdOf(y) := yb]) == [xb, yb]
  {
    var sections := [x, x, y];
    var data := map[IdOf(x) := xb][IdOf(y) := yb];
    TripleIndex(x, y);
    assert IdOf(x) != IdOf(y);
    assert data.Keys == BuildIndex(sections).Keys && |data| == 2;
    MaterializeSorted(sections, data);
    SortedPair(IdOf(x), IdOf(y), xb, yb, Materialize(sections, data));
  }

  /** Two blocks taken from the buffer {x: xb, y: yb} in increasing index
      order, x indexed before y, are [xb, yb]. */
  lemma SortedPair(idx: SectionId, idy: SectionId, xb: Block, yb: Block, blocks: seq<Block>)
    requires idx != idy && BlockId(xb) == idx && BlockId(yb) == idy
    requires |blocks| == 2
    requires forall i :: 0 <= i < 2 ==>
      (BlockId(blocks[i]) in map[idx := xb][idy := yb] && map[idx := xb][idy := yb][BlockId(blocks[i])] == blocks[i])
    requires BlockId(blocks[0]) in map[idx := 1, idy := 2] && BlockId(blocks[1]) in map[idx := 1, idy := 2]
    requires map[idx := 1, idy := 2][BlockId(blocks[0])] < map[idx := 1, idy := 2][BlockId(blocks[1])]
    ensures blocks == [xb, yb]
  {
  }

  // ---------------------------------------------------------------------------
  // The runner's block as the call in src/controller.rs:171 literally builds
  // it: `Block::new` takes the text first, so "command" becomes the text,
  // the section's name the block's name and the output its instance.

  function LiteralRunnerBlock(section: Section, text: string): (b: Block)
    ensures b.fullText == "command" && b.name == section.name && b.instance == text
  {
    NewBlock("command", section.name, text)
  }

  /** Unless a section is itself named "command", the literal block's identity
      is in no index, so a controller after its barrier panics on it. */
  lemma LiteralBlockUnrouted(sections: seq<Section>, i: nat, text: string, minInterval: nat, st: AggState, at: nat)
    requires i < |sections| && sections[i].name != "command"
    ensures BlockId(LiteralRunnerBlock(sections[i], text)) !in BuildIndex(sections)
    ensures st.phase.Steady? ==>
      Step(sections, minInterval, st, Arrival(LiteralRunnerBlock(sections[i], text), at)).phase == Panicked(UnknownSection)
  {
    SectionIndex(sections);
    var id := BlockId(LiteralRunnerBlock(sections[i], text));
    assert id.kind == sections[i].name;
    forall k | k in BuildIndex(sections)
      ensures k.kind == "command"
    {
      assert k == IdOf(sections[BuildIndex(sections)[k]]);
    }
  }

  /** With one section the literal block fills the barrier's buffer under an
      identity the index does not have: the controller panics before it ever
      sends a status. */
  lemma LiteralBarrierPanics(s: Section, text: string, minInterval: nat, start: nat, at: nat)
    requires s.name != "command"
    ensures Step([s], minInterval, Started(start), Arrival(LiteralRunnerBlock(s, text), at)).phase == Panicked(UnknownSection)
  {
    LiteralBlockUnrouted([s], 0, text, minInterval, Started(start), at);
    SectionIndex([s]);
    assert |BuildIndex([s])| == 1;
  }
}
