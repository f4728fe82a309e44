/**
 * The aggregator of src/controller.rs (`StatusController`). It indexes the
 * configured sections by identity, waits at a startup barrier until one
 * block per identity has arrived, puts those blocks in configuration order,
 * and from then on overwrites one slot per arriving block, emitting the
 * whole status only when more than the minimum interval has passed since
 * the previous emission.
 *
 * The channel the blocks arrive on is modelled as a sequence of arrivals,
 * each stamped with the tick at which it is handled; the channel the lines
 * are sent on is the sequence `sent` of emissions. A panic of `run`
 * (a failed `assert!`, a missing map key, an index out of range) is a
 * `Panicked` phase that no later arrival leaves.
 */
module Controller {
  import opened Wrappers
  import opened Json
  import opened Protocol
  import opened Config

  // ---------------------------------------------------------------------------
  // Identities and the section index

  /** `SectionId`: the pair (module, name) a block is routed by. */
  datatype SectionId = SectionId(kind: string, name: string)

  /** The key the index is built with: module "command" and the section's name. */
  function IdOf(s: Section): SectionId {
    SectionId("command", s.name)
  }

  /** The key an arriving block is looked up with: its name and its instance. */
  function BlockId(b: Block): SectionId {
    SectionId(b.name, b.instance)
  }

  /** The identities of the sections, in configuration order. */
  function Ids(sections: seq<Section>): (ids: seq<SectionId>)
    ensures |ids| == |sections|
  {
    seq(|sections|, i requires 0 <= i < |sections| => IdOf(sections[i]))
  }

  /** The index `new` builds: the enumerated identities collected into a map,
      each to its position. */
  function BuildIndex(sections: seq<Section>): map<SectionId, nat> {
    Collect(Ids(sections), |sections|)
  }

  /** The map collected from the first `n` keys paired with their positions.
      Collecting inserts in order, so a repeated key keeps its later position. */
  function Collect<K>(keys: seq<K>, n: nat): map<K, nat>
    requires n <= |keys|
  {
    if n == 0 then map[]
    else Collect(keys, n - 1)[keys[n - 1] := n - 1]
  }

  /** Every one of the first `n` keys is in the map, and maps to a position
      that holds it. */
  lemma {:induction false} CollectEntries<K>(keys: seq<K>, n: nat)
    requires n <= |keys|
    ensures forall i :: 0 <= i < n ==> keys[i] in Collect(keys, n)
    ensures forall k :: k in Collect(keys, n) ==> Collect(keys, n)[k] < n && keys[Collect(keys, n)[k]] == k
  {
    if n > 0 {
      CollectEntries(keys, n - 1);
    }
  }

  /** A key maps to the last position that holds it. */
  lemma {:induction false} LaterPositionWins<K>(keys: seq<K>, n: nat)
    requires n <= |keys|
    ensures forall k, j :: k in Collect(keys, n) && Collect(keys, n)[k] < j < n ==> keys[j] != k
  {
    if n > 0 {
      LaterPositionWins(keys, n - 1);
      var before := Collect(keys, n - 1);
      var after := Collect(keys, n);
      forall k, j | k in after && after[k] < j < n
        ensures keys[j] != k
      {
        if k != keys[n - 1] {
          assert after[k] == before[k];
        }
      }
    }
  }

  /** No key occurs twice among the first `n`. */
  predicate Distinct<K(==)>(keys: seq<K>, n: nat)
    requires n <= |keys|
  {
    forall i, j :: 0 <= i < j < n ==> keys[i] != keys[j]
  }

  /** The map has at most one entry per key, and exactly one per key precisely
      when no key repeats. */
  lemma {:induction false} CollectSize<K>(keys: seq<K>, n: nat)
    requires n <= |keys|
    ensures |Collect(keys, n)| <= n
    ensures |Collect(keys, n)| == n <==> Distinct(keys, n)
  {
    if n > 0 {
      CollectSize(keys, n - 1);
      var before := Collect(keys, n - 1);
      if keys[n - 1] in before {
        CollectEntries(keys, n - 1);
        RepeatNotDistinct(keys, n, before[keys[n - 1]]);
      } else {
        NewKeepsDistinct(keys, n);
      }
    }
  }

  lemma RepeatNotDistinct<K>(keys: seq<K>, n: nat, j: nat)
    requires 0 < n <= |keys| && j < n - 1 && keys[j] == keys[n - 1]
    ensures !Distinct(keys, n)
  {
  }

  lemma NewKeepsDistinct<K>(keys: seq<K>, n: nat)
    requires 0 < n <= |keys| && keys[n - 1] !in Collect(keys, n - 1)
    ensures Distinct(keys, n) <==> Distinct(keys, n - 1)
  {
    if Distinct(keys, n - 1) {
      CollectEntries(keys, n - 1);
      forall i, j | 0 <= i < j < n
        ensures keys[i] != keys[j]
      {
        if j == n - 1 {
          assert keys[i] in Collect(keys, n - 1);
        }
      }
    }
  }

  /** Without repeats every key maps to its own position. */
  lemma CollectDistinct<K>(keys: seq<K>, n: nat)
    requires n <= |keys| && Distinct(keys, n)
    ensures forall i :: 0 <= i < n ==> keys[i] in Collect(keys, n) && Collect(keys, n)[keys[i]] == i
  {
    CollectEntries(keys, n);
    var index := Collect(keys, n);
    forall i | 0 <= i < n
      ensures index[keys[i]] == i
    {
      assert keys[index[keys[i]]] == keys[i];
    }
  }

  /** No two sections share a name. */
  predicate DistinctNames(sections: seq<Section>) {
    forall i, j :: 0 <= i < j < |sections| ==> sections[i].name != sections[j].name
  }

  /** The section index of `new`: every section's identity is a key, every key
      is the identity of the last section that has it, there are at most as
      many keys as sections, and exactly as many precisely when the names are
      distinct. */
  lemma SectionIndex(sections: seq<Section>)
    ensures var index := BuildIndex(sections);
      && (forall i :: 0 <= i < |sections| ==> IdOf(sections[i]) in index)
      && (forall k :: k in index ==> index[k] < |sections| && IdOf(sections[index[k]]) == k)
      && (forall k, j :: k in index && index[k] < j < |sections| ==> IdOf(sections[j]) != k)
      && |index| <= |sections|
      && (|index| == |sections| <==> DistinctNames(sections))
  {
    var ids := Ids(sections);
    var index := BuildIndex(sections);
    CollectEntries(ids, |sections|);
    LaterPositionWins(ids, |sections|);
    CollectSize(ids, |sections|);
    forall i | 0 <= i < |sections|
      ensures IdOf(sections[i]) in index
    {
      assert ids[i] == IdOf(sections[i]);
    }
    forall k | k in index
      ensures index[k] < |sections| && IdOf(sections[index[k]]) == k
    {
      assert ids[index[k]] == IdOf(sections[index[k]]);
    }
    forall k, j | k in index && index[k] < j < |sections|
      ensures IdOf(sections[j]) != k
    {
      assert ids[j] == IdOf(sections[j]);
    }
    NamesAndIds(sections);
  }

  lemma NamesAndIds(sections: seq<Section>)
    ensures Distinct(Ids(sections), |sections|) <==> DistinctNames(sections)
  {
    var ids := Ids(sections);
    assert forall i :: 0 <= i < |sections| ==> ids[i] == IdOf(sections[i]);
  }

  /** With distinct names every section is found at its own position. */
  lemma IndexOfDistinct(sections: seq<Section>)
    requires DistinctNames(sections)
    ensures forall i :: 0 <= i < |sections| ==> IdOf(sections[i]) in BuildIndex(sections) && BuildIndex(sections)[IdOf(sections[i])] == i
  {
    var ids := Ids(sections);
    NamesAndIds(sections);
    CollectDistinct(ids, |sections|);
    assert forall i :: 0 <= i < |sections| ==> ids[i] == IdOf(sections[i]);
  }

  // ---------------------------------------------------------------------------
  // Putting the buffered blocks in configuration order

  /** The wanted keys in increasing index order: the walk over the positions
      from `p` on, keeping each position that is the index entry of a wanted
      key. */
  function Ordered<K>(keys: seq<K>, index: map<K, nat>, wanted: set<K>, p: nat): (r: seq<K>)
    requires p <= |keys|
    ensures forall i :: 0 <= i < |r| ==> r[i] in wanted
    decreases |keys| - p
  {
    if p == |keys| then []
    else
      var rest := Ordered(keys, index, wanted, p + 1);
      if keys[p] in wanted && keys[p] in index && index[keys[p]] == p then [keys[p]] + rest else rest
  }

  /** The walk keeps only wanted keys, in strictly increasing index order, and
      keeps every wanted key whose index entry lies ahead of it. */
  lemma {:induction false} OrderedSorted<K>(keys: seq<K>, index: map<K, nat>, wanted: set<K>, p: nat)
    requires p <= |keys| && forall i :: 0 <= i < |keys| ==> keys[i] in index
    ensures var r := Ordered(keys, index, wanted, p);
      && (forall i :: 0 <= i < |r| ==> r[i] in wanted && r[i] in index && p <= index[r[i]])
      && (forall i, j :: 0 <= i < j < |r| ==> index[r[i]] < index[r[j]])
      && (forall k :: k in wanted && k in index && p <= index[k] < |keys| && keys[index[k]] == k ==> k in r)
    decreases |keys| - p
  {
    if p < |keys| {
      OrderedSorted(keys, index, wanted, p + 1);
      var rest := Ordered(keys, index, wanted, p + 1);
      var r := Ordered(keys, index, wanted, p);
      if keys[p] in wanted && keys[p] in index && index[keys[p]] == p {
        assert r == [keys[p]] + rest;
        forall i | 0 < i < |r|
          ensures r[i] == rest[i - 1]
        {
        }
      } else {
        assert r == rest;
      }
    }
  }

  /** `sorted_by_key` over (index, block) pairs: the buffered blocks in
      increasing index order. */
  function Materialize(sections: seq<Section>, data: map<SectionId, Block>): seq<Block> {
    Lookup(data, Ordered(Ids(sections), BuildIndex(sections), data.Keys, 0))
  }

  /** The buffered blocks of the given identities, in that order. */
  function Lookup(data: map<SectionId, Block>, ids: seq<SectionId>): (blocks: seq<Block>)
    requires forall i :: 0 <= i < |ids| ==> ids[i] in data
    ensures |blocks| == |ids| && forall i :: 0 <= i < |ids| ==> blocks[i] == data[ids[i]]
  {
    seq(|ids|, i requires 0 <= i < |ids| => data[ids[i]])
  }

  /** A buffer holds each block under its own identity. */
  predicate KeyedByIdentity(data: map<SectionId, Block>) {
    forall k :: k in data ==> BlockId(data[k]) == k
  }

  /** The elements of a sequence, as a set. */
  function Elements<K(!new)>(r: seq<K>): (e: set<K>)
    ensures forall x :: x in e <==> x in r
  {
    if r == [] then {} else {r[0]} + Elements(r[1..])
  }

  /** Keys in strictly increasing index order are all different. */
  lemma IncreasingDistinct<K(!new)>(r: seq<K>, index: map<K, nat>)
    requires forall i :: 0 <= i < |r| ==> r[i] in index
    requires forall i, j :: 0 <= i < j < |r| ==> index[r[i]] < index[r[j]]
    ensures |Elements(r)| == |r|
  {
    forall i, j | 0 <= i < j < |r|
      ensures r[i] != r[j]
    {
      assert index[r[i]] < index[r[j]];
    }
    DistinctCard(r);
  }

  /** A sequence without repeats has as many elements as it is long. */
  lemma {:induction false} DistinctCard<K(!new)>(r: seq<K>)
    requires forall i, j :: 0 <= i < j < |r| ==> r[i] != r[j]
    ensures |Elements(r)| == |r|
  {
    if r != [] {
      var tail := r[1..];
      forall i, j | 0 <= i < j < |tail|
        ensures tail[i] != tail[j]
      {
        assert r[i + 1] != r[j + 1];
      }
      DistinctCard(tail);
      forall k | 0 <= k < |tail|
        ensures tail[k] != r[0]
      {
        assert r[0] != r[k + 1];
      }
      assert r[0] !in tail;
      assert Elements(r) == {r[0]} + Elements(tail);
    }
  }

  lemma {:induction false} SubsetSize<T>(a: set<T>, b: set<T>)
    requires a <= b
    ensures |a| <= |b|
    ensures |a| == |b| ==> a == b
    decreases b
  {
    if a != {} {
      var x :| x in a;
      assert x in b;
      SubsetSize(a - {x}, b - {x});
      assert a == (a - {x}) + {x} && b == (b - {x}) + {x};
    }
  }

  /** The materialized status is the buffered blocks sorted by configuration
      index: one slot per buffered block, in strictly increasing index order,
      and every buffered block present. */
  lemma MaterializeSorted(sections: seq<Section>, data: map<SectionId, Block>)
    requires data.Keys <= BuildIndex(sections).Keys && KeyedByIdentity(data)
    ensures var blocks := Materialize(sections, data);
      && |blocks| == |data|
      && (forall i :: 0 <= i < |blocks| ==> BlockId(blocks[i]) in data && data[BlockId(blocks[i])] == blocks[i])
      && (forall i, j :: 0 <= i < j < |blocks| ==>
            BuildIndex(sections)[BlockId(blocks[i])] < BuildIndex(sections)[BlockId(blocks[j])])
      && (forall k :: k in data ==> data[k] in blocks)
  {
    var index := BuildIndex(sections);
    CollectEntries(Ids(sections), |sections|);
    var ids := Ordered(Ids(sections), index, data.Keys, 0);
    OrderedSorted(Ids(sections), index, data.Keys, 0);
    OrderedComplete(sections, data, ids);
    LookupSorted(index, data, ids);
  }

  /** Every buffered identity is among those the walk keeps. */
  lemma OrderedComplete(sections: seq<Section>, data: map<SectionId, Block>, ids: seq<SectionId>)
    requires data.Keys <= BuildIndex(sections).Keys
    requires forall i :: 0 <= i < |sections| ==> Ids(sections)[i] in BuildIndex(sections)
    requires ids == Ordered(Ids(sections), BuildIndex(sections), data.Keys, 0)
    ensures forall k :: k in data ==> k in ids
  {
    var index := BuildIndex(sections);
    CollectEntries(Ids(sections), |sections|);
    OrderedSorted(Ids(sections), index, data.Keys, 0);
  }

  /** Looking up identities in strictly increasing index order that cover the
      buffer gives each buffered block once, in that order. */
  lemma LookupSorted(index: map<SectionId, nat>, data: map<SectionId, Block>, ids: seq<SectionId>)
    requires KeyedByIdentity(data)
    requires forall i :: 0 <= i < |ids| ==> ids[i] in data && ids[i] in index
    requires forall i, j :: 0 <= i < j < |ids| ==> index[ids[i]] < index[ids[j]]
    requires forall k :: k in data ==> k in ids
    ensures var blocks := Lookup(data, ids);
      && |blocks| == |data|
      && (forall i :: 0 <= i < |blocks| ==> BlockId(blocks[i]) == ids[i] && BlockId(blocks[i]) in data && data[BlockId(blocks[i])] == blocks[i])
      && (forall i, j :: 0 <= i < j < |blocks| ==> index[BlockId(blocks[i])] < index[BlockId(blocks[j])])
      && (forall k :: k in data ==> data[k] in blocks)
  {
    var blocks := Lookup(data, ids);
    MaterializeLength(index, data, ids);
    forall k | k in data
      ensures data[k] in blocks
    {
      var i :| 0 <= i < |ids| && ids[i] == k;
      assert blocks[i] == data[k];
    }
  }

  lemma MaterializeLength(index: map<SectionId, nat>, data: map<SectionId, Block>, ids: seq<SectionId>)
    requires forall i :: 0 <= i < |ids| ==> ids[i] in data && ids[i] in index
    requires forall i, j :: 0 <= i < j < |ids| ==> index[ids[i]] < index[ids[j]]
    requires forall k :: k in data ==> k in ids
    ensures |ids| == |data|
  {
    IncreasingDistinct(ids, index);
    assert Elements(ids) == data.Keys;
  }

  /** With distinct names and a block buffered for every section, slot `i`
      holds the block of section `i`. */
  lemma MaterializeInOrder(sections: seq<Section>, data: map<SectionId, Block>)
    requires DistinctNames(sections) && data.Keys == BuildIndex(sections).Keys
    ensures var blocks := Materialize(sections, data);
      && |blocks| == |sections|
      && forall i :: 0 <= i < |sections| ==> IdOf(sections[i]) in data && blocks[i] == data[IdOf(sections[i])]
  {
    var ids := Ids(sections);
    IndexOfDistinct(sections);
    CollectEntries(ids, |sections|);
    OrderedAll(ids, BuildIndex(sections), data.Keys, 0);
  }

  /** When every key is wanted and sits at its own position, the walk keeps
      them all. */
  lemma {:induction false} OrderedAll<K>(keys: seq<K>, index: map<K, nat>, wanted: set<K>, p: nat)
    requires p <= |keys|
    requires forall i :: 0 <= i < |keys| ==> keys[i] in wanted && keys[i] in index && index[keys[i]] == i
    ensures var r := Ordered(keys, index, wanted, p);
      |r| == |keys| - p && forall i :: 0 <= i < |r| ==> r[i] == keys[p + i]
    decreases |keys| - p
  {
    if p < |keys| {
      OrderedAll(keys, index, wanted, p + 1);
      var rest := Ordered(keys, index, wanted, p + 1);
      assert Ordered(keys, index, wanted, p) == [keys[p]] + rest;
    }
  }

  // ---------------------------------------------------------------------------
  // The aggregation state machine of `run`

  /** The ways `new` and `run` panic: no sections configured, a block whose
      identity the index lacks, a slot past the end of the status. */
  datatype Fault = NoSections | UnknownSection | SlotOutOfRange

  datatype Phase = Barrier | Steady | Panicked(fault: Fault)

  /** A block taken off the channel, with the tick at which it is handled. */
  datatype Arrival = Arrival(block: Block, at: nat)

  /** What was pushed into the output channel, with the tick of sending: the
      header, or a status together with the blocks it was rendered from. */
  datatype Emission = HeaderEmission(at: nat) | StatusEmission(blocks: seq<Block>, at: nat)

  /** The locals and fields `run` works on: the phase it is in, the buffer of
      the barrier, the status blocks, everything sent so far and the tick of
      the last status sent. */
  datatype AggState = AggState(
    phase: Phase,
    initialData: map<SectionId, Block>,
    blocks: seq<Block>,
    sent: seq<Emission>,
    lastSent: nat)

  /** `Instant::elapsed`: the ticks since `since`, zero when the clock reads
      earlier. */
  function Elapsed(now: nat, since: nat): nat {
    if now >= since then now - since else 0
  }

  /** The state once `run` has sent the header at tick `start`. */
  function Started(start: nat): AggState {
    AggState(Barrier, map[], [], [HeaderEmission(start)], start)
  }

  /** One block handled by `run`. */
  function Step(sections: seq<Section>, minInterval: nat, st: AggState, a: Arrival): AggState {
    match st.phase
    case Panicked(_) => st
    case Barrier => BarrierStep(sections, st, a)
    case Steady => SteadyStep(sections, minInterval, st, a)
  }

  /** The barrier loop buffers the block under its identity, replacing an
      earlier one; once the buffer has as many entries as the index, the
      buffered blocks are put in index order, appended to the (still empty)
      status, and the first status is sent without consulting the clock. */
  function BarrierStep(sections: seq<Section>, st: AggState, a: Arrival): AggState {
    var index := BuildIndex(sections);
    var data := st.initialData[BlockId(a.block) := a.block];
    if |data| < |index| then st.(initialData := data)
    else if !(data.Keys <= index.Keys) then st.(initialData := data, phase := Panicked(UnknownSection))
    else
      var blocks := st.blocks + Materialize(sections, data);
      AggState(Steady, map[], blocks, st.sent + [StatusEmission(blocks, a.at)], a.at)
  }

  /** The steady loop overwrites the slot of the block's identity, and sends
      the status when more than `minInterval` ticks have passed since the last
      one was sent. */
  function SteadyStep(sections: seq<Section>, minInterval: nat, st: AggState, a: Arrival): AggState {
    var index := BuildIndex(sections);
    var id := BlockId(a.block);
    if id !in index then st.(phase := Panicked(UnknownSection))
    else if index[id] >= |st.blocks| then st.(phase := Panicked(SlotOutOfRange))
    else
      var blocks := st.blocks[index[id] := a.block];
      if Elapsed(a.at, st.lastSent) > minInterval then
        st.(blocks := blocks, sent := st.sent + [StatusEmission(blocks, a.at)], lastSent := a.at)
      else
        st.(blocks := blocks)
  }

  /** The arrivals handled one after the other. */
  function Feed(sections: seq<Section>, minInterval: nat, st: AggState, arrivals: seq<Arrival>): AggState
    decreases |arrivals|
  {
    if arrivals == [] then st
    else
      var n := |arrivals| - 1;
      Step(sections, minInterval, Feed(sections, minInterval, st, arrivals[..n]), arrivals[n])
  }

  // ---------------------------------------------------------------------------
  // The lines sent

  /** `get_header`: the header's JSON and the opening bracket of the endless
      array. */
  function HeaderLine(): string {
    Render(HeaderToJson(NewHeader())) + "\n["
  }

  /** `get_status`: the status's JSON followed by a comma. */
  function StatusLine(blocks: seq<Block>): string {
    Render(StatusToJson(Status(blocks))) + ","
  }

  function Line(e: Emission): string {
    match e
    case HeaderEmission(_) => HeaderLine()
    case StatusEmission(blocks, _) => StatusLine(blocks)
  }

  /** The header line spelled out. */
  lemma HeaderLineText()
    ensures HeaderLine() == "{" + "\"version\":1" + "," + "\"click_events\":false"
      + "," + "\"cont_signal\":18" + "," + "\"stop_signal\":19" + "}" + "\n["
  {
    HeaderText();
  }

  /** A status line is a JSON array of one object per block, in order, each
      with exactly its block's members, and then a comma; the line on its own
      is therefore not a JSON document, only an element of the array the
      header opened. */
  lemma StatusLineReadsBack(blocks: seq<Block>)
    ensures var line := StatusLine(blocks);
      && |line| > 0 && line[|line| - 1] == ','
      && var r := Parse(line[..|line| - 1]);
      && r.Some? && r.value.Array? && |r.value.items| == |blocks|
      && (forall i :: 0 <= i < |blocks| ==> r.value.items[i] == Object(BlockFields(blocks[i])))
      && Parse(line) == None
  {
    var text := Render(StatusToJson(Status(blocks)));
    var line := StatusLine(blocks);
    assert line[..|line| - 1] == text;
    StatusReadsBack(Status(blocks));
    ParseRender(StatusToJson(Status(blocks)), ",");
  }

  // ---------------------------------------------------------------------------
  // Properties of the state machine

  /** What holds of every state `run` reaches once the header is sent at tick
      `start`: the header came first and everything after it is a status of
      one block per indexed identity; statuses after the first are more than
      `minInterval` ticks apart, and `lastSent` is the tick of the latest one;
      nothing but the header is sent during the barrier, whose buffer holds
      each block under its own identity; after the barrier the status has one
      slot per indexed identity; and, when names are distinct, slot `i` of
      the status and of every status sent holds a block of section `i`. */
  predicate Invariant(sections: seq<Section>, minInterval: nat, start: nat, st: AggState) {
    var index := BuildIndex(sections);
    && |st.sent| >= 1 && st.sent[0] == HeaderEmission(start)
    && (forall j :: 1 <= j < |st.sent| ==>
          st.sent[j].StatusEmission? && |st.sent[j].blocks| == |index|
          && (DistinctNames(sections) ==> InConfigOrder(sections, st.sent[j].blocks)))
    && (forall j :: 1 <= j < |st.sent| - 1 ==> st.sent[j + 1].at > st.sent[j].at + minInterval)
    && (|st.sent| >= 2 ==> st.lastSent == st.sent[|st.sent| - 1].at)
    && (st.phase.Barrier? ==> |st.sent| == 1 && st.blocks == [] && KeyedByIdentity(st.initialData))
    && (st.phase.Steady? ==> |st.sent| >= 2 && |st.blocks| == |index|)
    && (st.phase.Steady? && DistinctNames(sections) ==> InConfigOrder(sections, st.blocks))
  }

  /** Slot `i` holds a block of section `i`, for every section. */
  predicate InConfigOrder(sections: seq<Section>, blocks: seq<Block>) {
    |blocks| == |sections| && forall i :: 0 <= i < |sections| ==> BlockId(blocks[i]) == IdOf(sections[i])
  }

  lemma BarrierStepKeeps(sections: seq<Section>, minInterval: nat, start: nat, st: AggState, a: Arrival)
    requires Invariant(sections, minInterval, start, st) && st.phase.Barrier?
    ensures Invariant(sections, minInterval, start, Step(sections, minInterval, st, a))
  {
    var index := BuildIndex(sections);
    var data := st.initialData[BlockId(a.block) := a.block];
    if |data| < |index| {
      assert Step(sections, minInterval, st, a) == st.(initialData := data);
      assert KeyedByIdentity(data);
    } else if !(data.Keys <= index.Keys) {
      assert Step(sections, minInterval, st, a) == st.(initialData := data, phase := Panicked(UnknownSection));
    } else {
      var blocks := Materialize(sections, data);
      assert st.blocks + blocks == blocks;
      assert Step(sections, minInterval, st, a) == AggState(Steady, map[], blocks, st.sent + [StatusEmission(blocks, a.at)], a.at);
      assert KeyedByIdentity(data);
      ExitKeeps(sections, minInterval, start, st.sent, data, a.at);
    }
  }

  /** Leaving the barrier with a full buffer of known identities keeps the
      invariant. */
  lemma ExitKeeps(sections: seq<Section>, minInterval: nat, start: nat, sent: seq<Emission>, data: map<SectionId, Block>, at: nat)
    requires sent == [HeaderEmission(start)] && KeyedByIdentity(data)
    requires data.Keys <= BuildIndex(sections).Keys && |data| >= |BuildIndex(sections)|
    ensures var blocks := Materialize(sections, data);
      Invariant(sections, minInterval, start, AggState(Steady, map[], blocks, sent + [StatusEmission(blocks, at)], at))
  {
    var index := BuildIndex(sections);
    var blocks := Materialize(sections, data);
    SubsetSize(data.Keys, index.Keys);
    MaterializeSorted(sections, data);
    if DistinctNames(sections) {
      SectionIndex(sections);
      MaterializeInOrder(sections, data);
    }
    FirstStatusKeeps(sections, minInterval, start, sent, blocks, at);
  }

  /** The state right after the barrier keeps the invariant. */
  lemma FirstStatusKeeps(sections: seq<Section>, minInterval: nat, start: nat, sent: seq<Emission>, blocks: seq<Block>, at: nat)
    requires sent == [HeaderEmission(start)] && |blocks| == |BuildIndex(sections)|
    requires DistinctNames(sections) ==> InConfigOrder(sections, blocks)
    ensures Invariant(sections, minInterval, start, AggState(Steady, map[], blocks, sent + [StatusEmission(blocks, at)], at))
  {
    var sent' := sent + [StatusEmission(blocks, at)];
    assert |sent'| == 2 && sent'[0] == HeaderEmission(start) && sent'[1] == StatusEmission(blocks, at);
  }

  lemma SteadyStepKeeps(sections: seq<Section>, minInterval: nat, start: nat, st: AggState, a: Arrival)
    requires Invariant(sections, minInterval, start, st) && st.phase.Steady?
    ensures Invariant(sections, minInterval, start, Step(sections, minInterval, st, a))
  {
    var index := BuildIndex(sections);
    var id := BlockId(a.block);
    if id in index && index[id] < |st.blocks| {
      var blocks := st.blocks[index[id] := a.block];
      if DistinctNames(sections) {
        UpdateInOrder(sections, st.blocks, a.block);
      }
      if Elapsed(a.at, st.lastSent) > minInterval {
        assert Step(sections, minInterval, st, a) ==
          st.(blocks := blocks, sent := st.sent + [StatusEmission(blocks, a.at)], lastSent := a.at);
        SendKeeps(sections, minInterval, start, st, blocks, a.at);
      } else {
        assert Step(sections, minInterval, st, a) == st.(blocks := blocks);
      }
    }
  }

  /** With distinct names, routing a block to its index entry keeps slot `i`
      a block of section `i`. */
  lemma UpdateInOrder(sections: seq<Section>, blocks: seq<Block>, b: Block)
    requires DistinctNames(sections) && InConfigOrder(sections, blocks)
    requires BlockId(b) in BuildIndex(sections) && BuildIndex(sections)[BlockId(b)] < |blocks|
    ensures InConfigOrder(sections, blocks[BuildIndex(sections)[BlockId(b)] := b])
  {
    SectionIndex(sections);
  }

  /** Sending a status of the right shape more than `minInterval` ticks after
      the last one keeps the invariant. */
  lemma SendKeeps(sections: seq<Section>, minInterval: nat, start: nat, st: AggState, blocks: seq<Block>, at: nat)
    requires Invariant(sections, minInterval, start, st) && st.phase.Steady?
    requires |blocks| == |BuildIndex(sections)|
    requires DistinctNames(sections) ==> InConfigOrder(sections, blocks)
    requires Elapsed(at, st.lastSent) > minInterval
    ensures Invariant(sections, minInterval, start, st.(blocks := blocks, sent := st.sent + [StatusEmission(blocks, at)], lastSent := at))
  {
    var sent := st.sent + [StatusEmission(blocks, at)];
    assert forall j :: 0 <= j < |st.sent| ==> sent[j] == st.sent[j];
    assert sent[|sent| - 1] == StatusEmission(blocks, at);
  }

  /** Every state reached from the header keeps the invariant. */
  lemma {:induction false} FeedKeeps(sections: seq<Section>, minInterval: nat, start: nat, arrivals: seq<Arrival>)
    ensures Invariant(sections, minInterval, start, Feed(sections, minInterval, Started(start), arrivals))
    decreases |arrivals|
  {
    if arrivals != [] {
      var n := |arrivals| - 1;
      FeedKeeps(sections, minInterval, start, arrivals[..n]);
      var st := Feed(sections, minInterval, Started(start), arrivals[..n]);
      match st.phase
      case Barrier => BarrierStepKeeps(sections, minInterval, start, st, arrivals[n]);
      case Steady => SteadyStepKeeps(sections, minInterval, start, st, arrivals[n]);
      case Panicked(_) =>
    }
  }

  /** The barrier, fed blocks of known identities: it ends exactly when the
      buffer holds one block per indexed identity; until then the block only
      replaces the buffered one of its identity and nothing is sent; when it
      ends, the status holds every buffered block in strictly increasing
      index order and is sent at once, whatever the clock says. */
  lemma BarrierExit(sections: seq<Section>, minInterval: nat, st: AggState, a: Arrival)
    requires st.phase.Barrier? && st.blocks == [] && KeyedByIdentity(st.initialData)
    requires st.initialData.Keys <= BuildIndex(sections).Keys && BlockId(a.block) in BuildIndex(sections)
    ensures var index := BuildIndex(sections);
      var data := st.initialData[BlockId(a.block) := a.block];
      var r := Step(sections, minInterval, st, a);
      && (r.phase.Steady? <==> data.Keys == index.Keys)
      && (r.phase.Barrier? <==> data.Keys != index.Keys)
      && (r.phase.Barrier? ==> r == st.(initialData := data))
      && (r.phase.Steady? ==>
            && |r.blocks| == |index|
            && (forall i :: 0 <= i < |r.blocks| ==> BlockId(r.blocks[i]) in data && data[BlockId(r.blocks[i])] == r.blocks[i])
            && (forall i, j :: 0 <= i < j < |r.blocks| ==> index[BlockId(r.blocks[i])] < index[BlockId(r.blocks[j])])
            && (forall k :: k in data ==> data[k] in r.blocks)
            && r.sent == st.sent + [StatusEmission(r.blocks, a.at)]
            && r.lastSent == a.at)
  {
    var index := BuildIndex(sections);
    var data := st.initialData[BlockId(a.block) := a.block];
    assert KeyedByIdentity(data);
    SubsetSize(data.Keys, index.Keys);
    if data.Keys == index.Keys {
      var blocks := Materialize(sections, data);
      assert st.blocks + blocks == blocks;
      var r := Step(sections, minInterval, st, a);
      assert r == AggState(Steady, map[], blocks, st.sent + [StatusEmission(blocks, a.at)], a.at);
      MaterializeSorted(sections, data);
      assert r.blocks == blocks && |blocks| == |index|;
    } else {
      assert |data| < |index|;
      assert Step(sections, minInterval, st, a) == st.(initialData := data);
    }
  }

  /** The barrier, once its buffer holds an identity the index lacks: the
      block is buffered and nothing is sent while the buffer is smaller than
      the index; once it is as large, sorting the buffer by index fails on the
      unknown identity and `run` panics before any status is sent. */
  lemma BarrierUnknown(sections: seq<Section>, minInterval: nat, st: AggState, a: Arrival)
    requires st.phase.Barrier?
    requires !(st.initialData[BlockId(a.block) := a.block].Keys <= BuildIndex(sections).Keys)
    ensures var data := st.initialData[BlockId(a.block) := a.block];
      var r := Step(sections, minInterval, st, a);
      && (|data| < |BuildIndex(sections)| ==> r == st.(initialData := data))
      && (|data| >= |BuildIndex(sections)| ==>
            && r.phase == Panicked(UnknownSection)
            && r.initialData == data && r.blocks == st.blocks
            && r.sent == st.sent && r.lastSent == st.lastSent)
  {
    var data := st.initialData[BlockId(a.block) := a.block];
    if |data| < |BuildIndex(sections)| {
      assert Step(sections, minInterval, st, a) == st.(initialData := data);
    } else {
      assert Step(sections, minInterval, st, a) == st.(initialData := data, phase := Panicked(UnknownSection));
    }
  }

  /** After the barrier a block of a known identity whose slot exists replaces
      that slot and no other, and the status is sent, and `lastSent` moved,
      exactly when more than `minInterval` ticks have passed since the last
      status; an unknown identity or a missing slot panics and changes
      nothing else. */
  lemma SteadyUpdate(sections: seq<Section>, minInterval: nat, st: AggState, a: Arrival)
    requires st.phase.Steady?
    ensures var index := BuildIndex(sections);
      var id := BlockId(a.block);
      var r := Step(sections, minInterval, st, a);
      && (id !in index ==> r == st.(phase := Panicked(UnknownSection)))
      && (id in index && index[id] >= |st.blocks| ==> r == st.(phase := Panicked(SlotOutOfRange)))
      && (id in index && index[id] < |st.blocks| ==>
            && r.phase.Steady? && r.initialData == st.initialData
            && |r.blocks| == |st.blocks| && r.blocks[index[id]] == a.block
            && (forall j :: 0 <= j < |st.blocks| && j != index[id] ==> r.blocks[j] == st.blocks[j])
            && (Elapsed(a.at, st.lastSent) > minInterval <==> |r.sent| > |st.sent|)
            && (Elapsed(a.at, st.lastSent) > minInterval ==>
                  r.sent == st.sent + [StatusEmission(r.blocks, a.at)] && r.lastSent == a.at)
            && (Elapsed(a.at, st.lastSent) <= minInterval ==>
                  r.sent == st.sent && r.lastSent == st.lastSent))
  {
  }

  /** After a panic nothing changes any more: no later arrival is handled. */
  lemma {:induction false} StaysPanicked(sections: seq<Section>, minInterval: nat, st: AggState, arrivals: seq<Arrival>)
    requires st.phase.Panicked?
    ensures Feed(sections, minInterval, st, arrivals) == st
    decreases |arrivals|
  {
    if arrivals != [] {
      var n := |arrivals| - 1;
      StaysPanicked(sections, minInterval, st, arrivals[..n]);
      PanickedStep(sections, minInterval, st, arrivals[n]);
    }
  }

  lemma PanickedStep(sections: seq<Section>, minInterval: nat, st: AggState, a: Arrival)
    requires st.phase.Panicked?
    ensures Step(sections, minInterval, st, a) == st
  {
  }

  // ---------------------------------------------------------------------------
  // The controller object

  /** `StatusController`: the configured sections, the minimum interval, the
      section index `new` builds, and the state `run` changes in place: the
      barrier's buffer (a local of `run`, kept as a field here), the status
      blocks, the lines sent and the tick of the last status sent. */
  class StatusController {
    const sections: seq<Section>
    const minInterval: nat
    const sectionIndex: map<SectionId, nat>
    var phase: Phase
    var initialData: map<SectionId, Block>
    var blocks: seq<Block>
    var sent: seq<Emission>
    var lastSent: nat

    ghost predicate Valid()
      reads this
    {
      |sections| > 0 && sectionIndex == BuildIndex(sections)
    }

    /** The mutable fields as one value, the state the step functions act on. */
    ghost function State(): AggState
      reads this
    {
      AggState(phase, initialData, blocks, sent, lastSent)
    }

    /** The strings pushed into the output channel so far. */
    function Output(): seq<string>
      reads this
    {
      seq(|sent|, j requires 0 <= j < |sent| reads this => Line(sent[j]))
    }

    constructor Init(sections: seq<Section>, minInterval: nat)
      requires |sections| > 0
      ensures Valid() && this.sections == sections && this.minInterval == minInterval
      ensures phase == Barrier && initialData == map[] && blocks == [] && sent == [] && lastSent == 0
    {
      this.sections := sections;
      this.minInterval := minInterval;
      sectionIndex := BuildIndex(sections);
      phase := Barrier;
      initialData := map[];
      blocks := [];
      sent := [];
      lastSent := 0;
    }

    /** One block taken off the channel: the body of the barrier loop before
        the barrier is passed, the body of the steady loop after it. */
    method Receive(a: Arrival)
      requires Valid()
      modifies this
      ensures Valid()
      ensures State() == Step(sections, minInterval, old(State()), a)
    {
      match phase {
        case Panicked(_) =>
        case Barrier =>
          initialData := initialData[BlockId(a.block) := a.block];
          if |initialData| >= |sectionIndex| {
            if !(initialData.Keys <= sectionIndex.Keys) {
              phase := Panicked(UnknownSection);
            } else {
              blocks := blocks + Materialize(sections, initialData);
              initialData := map[];
              phase := Steady;
              sent := sent + [StatusEmission(blocks, a.at)];
              lastSent := a.at;
            }
          }
        case Steady =>
          var id := BlockId(a.block);
          if id !in sectionIndex {
            phase := Panicked(UnknownSection);
          } else if sectionIndex[id] >= |blocks| {
            phase := Panicked(SlotOutOfRange);
          } else {
            blocks := blocks[sectionIndex[id] := a.block];
            if Elapsed(a.at, lastSent) > minInterval {
              sent := sent + [StatusEmission(blocks, a.at)];
              lastSent := a.at;
            }
          }
      }
    }

    /** `run`: send the header at tick `start`, then handle the arrivals in
        order. The header is the first line sent and every later line is a
        status of one block per indexed identity, each status after the first
        more than `minInterval` ticks after the one before. */
    method Run(start: nat, arrivals: seq<Arrival>)
      requires Valid() && phase == Barrier && initialData == map[] && blocks == [] && sent == []
      modifies this
      ensures Valid()
      ensures State() == Feed(sections, minInterval, Started(start), arrivals)
      ensures |Output()| >= 1 && Output()[0] == HeaderLine()
      ensures forall j :: 1 <= j < |sent| ==>
                sent[j].StatusEmission? && Output()[j] == StatusLine(sent[j].blocks) && |sent[j].blocks| == |sectionIndex|
      ensures forall j :: 1 <= j < |sent| - 1 ==> sent[j + 1].at > sent[j].at + minInterval
    {
      sent := [HeaderEmission(start)];
      lastSent := start;
      var i := 0;
      while i < |arrivals|
        invariant i <= |arrivals| && Valid()
        invariant State() == Feed(sections, minInterval, Started(start), arrivals[..i])
      {
        Receive(arrivals[i]);
        assert arrivals[..i + 1][..i] == arrivals[..i];
        i := i + 1;
      }
      assert arrivals[..i] == arrivals;
      FeedKeeps(sections, minInterval, start, arrivals);
    }
  }

  /** `StatusController::new`: no sections is a failed assertion; otherwise
      a controller whose index is built from the sections and whose status is
      still empty. */
  method NewController(sections: seq<Section>, minInterval: nat) returns (r: Result<StatusController, Fault>)
    ensures r.Failure? <==> |sections| == 0
    ensures r.Failure? ==> r.error == NoSections
    ensures r.Success? ==> fresh(r.value) && r.value.Valid()
    ensures r.Success? ==> r.value.sections == sections && r.value.minInterval == minInterval
    ensures r.Success? ==> r.value.sectionIndex == BuildIndex(sections)
    ensures r.Success? ==> r.value.phase == Barrier && r.value.initialData == map[] && r.value.blocks == [] && r.value.sent == []
  {
    if |sections| == 0 {
      return Failure(NoSections);
    }
    var c := new StatusController.Init(sections, minInterval);
    return Success(c);
  }
}
