/**
 * The older, synchronous status source of src/generator.rs
 * (`StatusGenerator`): an endless iterator whose first item is the header
 * line and whose every later item is a status holding one block per
 * configured section, in configuration order. The generator does not run
 * the commands; each block shows the command itself.
 */
module Generator {
  import opened Wrappers
  import opened Json
  import opened Protocol
  import opened Config
  import Controller

  /** The block written for a section: the command as the text, name
      "command" and the section's name as the instance. */
  function GeneratedBlock(section: Section): (b: Block)
    ensures b.fullText == section.command && b.minWidth == WidthOf(section.command)
    ensures b.name == "command" && b.instance == section.name
    ensures BlockFields(b) == [
      Member("full_text", Str(section.command)),
      Member("min_width", Str(section.command)),
      Member("name", Str("command")),
      Member("instance", Str(section.name)),
      Member("urgent", Bool(false)),
      Member("separator", Bool(true)),
      Member("markup", Str("none"))]
  {
    NewBlockFields(section.command, "command", section.name);
    NewBlock(section.command, "command", section.name)
  }

  /** The blocks of a status item, one per section in configuration order. */
  function GeneratedBlocks(sections: seq<Section>): seq<Block> {
    seq(|sections|, i requires 0 <= i < |sections| => GeneratedBlock(sections[i]))
  }

  /** A status item: the status's JSON, with nothing after it. */
  function StatusItem(blocks: seq<Block>): string {
    Render(StatusToJson(Status(blocks)))
  }

  /** A status item is never mistaken for the header line: one is an array,
      the other an object. */
  lemma HeaderIsNoStatusItem(blocks: seq<Block>)
    ensures Controller.HeaderLine() != StatusItem(blocks)
  {
    var header := Render(HeaderToJson(NewHeader()));
    RenderOpens(HeaderToJson(NewHeader()));
    RenderOpens(StatusToJson(Status(blocks)));
    assert Controller.HeaderLine()[0] == header[0];
  }

  /** An item is a whole JSON document: an array holding one object per block
      with exactly that block's members, in order. The controller writes the
      same array with a comma after it. */
  lemma StatusItemReadsBack(blocks: seq<Block>)
    ensures var r := Parse(StatusItem(blocks));
      && r.Some? && r.value.Array? && |r.value.items| == |blocks|
      && (forall i :: 0 <= i < |blocks| ==> r.value.items[i] == Object(BlockFields(blocks[i])))
    ensures Controller.StatusLine(blocks) == StatusItem(blocks) + ","
  {
    StatusReadsBack(Status(blocks));
  }

  class StatusGenerator {
    const sections: seq<Section>
    var headerSent: bool

    /** `StatusGenerator::new`: nothing sent yet. */
    constructor (sections: seq<Section>)
      ensures this.sections == sections && !headerSent
    {
      this.sections := sections;
      headerSent := false;
    }

    /** The loop pushing one block per section, in configuration order. */
    method CollectBlocks() returns (blocks: seq<Block>)
      ensures |blocks| == |sections|
      ensures forall i :: 0 <= i < |sections| ==> blocks[i] == GeneratedBlock(sections[i])
    {
      blocks := [];
      for i := 0 to |sections|
        invariant |blocks| == i
        invariant forall j :: 0 <= j < i ==> blocks[j] == GeneratedBlock(sections[j])
      {
        blocks := blocks + [GeneratedBlock(sections[i])];
      }
    }

    /** `Iterator::next`: the header line the first time, a status item of
        one block per section every later time; never the end of the
        iteration. */
    method Next() returns (item: Option<string>)
      modifies this
      ensures headerSent
      ensures item.Some?
      ensures item.value == if old(headerSent) then StatusItem(GeneratedBlocks(sections)) else Controller.HeaderLine()
    {
      if !headerSent {
        headerSent := true;
        return Some(Controller.HeaderLine());
      }
      var blocks := CollectBlocks();
      assert blocks == GeneratedBlocks(sections);
      return Some(StatusItem(blocks));
    }

    /** `take(n)` on the iterator: `n` items; the header is among them only
        as the first item of a fresh generator, every other item is the same
        status item. */
    method Take(n: nat) returns (items: seq<string>)
      modifies this
      ensures |items| == n
      ensures headerSent == (old(headerSent) || n > 0)
      ensures forall i :: 0 <= i < n ==>
        items[i] == if i == 0 && !old(headerSent) then Controller.HeaderLine() else StatusItem(GeneratedBlocks(sections))
      ensures forall i :: 0 <= i < n ==> (items[i] == Controller.HeaderLine() <==> i == 0 && !old(headerSent))
    {
      items := [];
      while |items| < n
        invariant |items| <= n
        invariant headerSent == (old(headerSent) || |items| > 0)
        invariant forall i :: 0 <= i < |items| ==>
          items[i] == if i == 0 && !old(headerSent) then Controller.HeaderLine() else StatusItem(GeneratedBlocks(sections))
      {
        var item := Next();
        items := items + [item.value];
      }
      HeaderIsNoStatusItem(GeneratedBlocks(sections));
    }
  }
}
