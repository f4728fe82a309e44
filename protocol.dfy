/**
 * The swaybar protocol records (src/protocol.rs): the header written once at
 * the start of the stream, the blocks a status line is made of, and the JSON
 * each of them is serialized to. A field declared `Option` is left out of the
 * JSON object when it is `None`; every other field is always written, in
 * declaration order.
 */
module Protocol {
  import opened Wrappers
  import opened Json

  /** Signal numbers of SIGCONT and SIGSTOP on Linux. */
  const SIGCONT: int := 18
  const SIGSTOP: int := 19

  type U8 = n: int | 0 <= n < 0x100
  type U32 = n: int | 0 <= n < 0x1_0000_0000

  datatype Header = Header(version: U8, clickEvents: bool, contSignal: int, stopSignal: int)

  /** `Header::new`: protocol version 1, no click events, the usual signals. */
  function NewHeader(): Header {
    Header(1, false, SIGCONT, SIGSTOP)
  }

  /** `Header::default` delegates to `Header::new`. */
  function DefaultHeader(): (h: Header)
    ensures h == NewHeader()
    ensures h.version == 1 && !h.clickEvents && h.contSignal == 18 && h.stopSignal == 19
  {
    NewHeader()
  }

  /** Serialized untagged: a number of pixels, or the text whose width to use. */
  datatype MinWidth = Pixels(px: U32) | WidthOf(text: string)

  datatype Align = Left | Right | Center

  /** `Markup::None` of the Rust enum; called NoMarkup here to stay clear of Option's None. */
  datatype Markup = Pango | NoMarkup

  datatype Block = Block(
    fullText: string,
    shortText: Option<string>,
    color: Option<string>,
    background: Option<string>,
    border: Option<string>,
    borderTop: Option<U32>,
    borderBottom: Option<U32>,
    borderLeft: Option<U32>,
    borderRight: Option<U32>,
    minWidth: MinWidth,
    align: Option<Align>,
    name: string,
    instance: string,
    urgent: bool,
    separator: bool,
    separatorBlockWidth: Option<U32>,
    markup: Markup)

  /** Serialized transparently: as the bare array of its blocks. */
  datatype Status = Status(blocks: seq<Block>)

  /** `Block::new`: the text doubles as the minimum width, nothing optional is
      set, the block is not urgent, draws a separator and uses no markup. */
  function NewBlock(fullText: string, name: string, instance: string): (b: Block)
    ensures b.fullText == fullText && b.name == name && b.instance == instance
    ensures b.minWidth == WidthOf(fullText)
    ensures !b.urgent && b.separator && b.markup == NoMarkup
    ensures Plain(b)
  {
    Block(fullText, None, None, None, None, None, None, None, None,
          WidthOf(fullText), None, name, instance, false, true, None, NoMarkup)
  }

  /** No optional field of the block is set. */
  predicate Plain(b: Block) {
    && b.shortText.None? && b.color.None? && b.background.None? && b.border.None?
    && b.borderTop.None? && b.borderBottom.None? && b.borderLeft.None? && b.borderRight.None?
    && b.align.None? && b.separatorBlockWidth.None?
  }

  /** A block from `Block::new` is written as exactly seven members, in this
      order, the text twice (as `full_text` and as the untagged `min_width`). */
  lemma NewBlockFields(fullText: string, name: string, instance: string)
    ensures BlockFields(NewBlock(fullText, name, instance)) == [
      Member("full_text", Str(fullText)),
      Member("min_width", Str(fullText)),
      Member("name", Str(name)),
      Member("instance", Str(instance)),
      Member("urgent", Bool(false)),
      Member("separator", Bool(true)),
      Member("markup", Str("none"))]
  {
    PlainBlockFields(NewBlock(fullText, name, instance));
  }

  /** A block with no optional field set writes exactly its seven mandatory
      members. */
  lemma PlainBlockFields(b: Block)
    requires Plain(b)
    ensures BlockFields(b) == [
      Member("full_text", Str(b.fullText)),
      Member("min_width", MinWidthToJson(b.minWidth)),
      Member("name", Str(b.name)),
      Member("instance", Str(b.instance)),
      Member("urgent", Bool(b.urgent)),
      Member("separator", Bool(b.separator)),
      Member("markup", Str(MarkupName(b.markup)))]
  {
    PlainSlots(b);
    PlainWritten(Slots(b),
      Member("full_text", Str(b.fullText)),
      Member("min_width", MinWidthToJson(b.minWidth)),
      Member("name", Str(b.name)),
      Member("instance", Str(b.instance)),
      Member("urgent", Bool(b.urgent)),
      Member("separator", Bool(b.separator)),
      Member("markup", Str(MarkupName(b.markup))));
  }

  /** The seventeen slots with only the seven mandatory ones set. */
  lemma PlainWritten(slots: seq<Slot>, ft: Member, mw: Member, nm: Member, ins: Member, ur: Member, sp: Member, mk: Member)
    requires |slots| == 17
    requires slots[0] == Slot(ft.key, Some(ft.value))
    requires forall i :: 1 <= i <= 8 ==> slots[i].value == None
    requires slots[9] == Slot(mw.key, Some(mw.value))
    requires slots[10].value == None
    requires slots[11] == Slot(nm.key, Some(nm.value))
    requires slots[12] == Slot(ins.key, Some(ins.value))
    requires slots[13] == Slot(ur.key, Some(ur.value))
    requires slots[14] == Slot(sp.key, Some(sp.value))
    requires slots[15].value == None
    requires slots[16] == Slot(mk.key, Some(mk.value))
    ensures Written(slots, 0) == [ft, mw, nm, ins, ur, sp, mk]
  {
    PlainWrittenFrom11(slots, nm, ins, ur, sp, mk);
    var rest := [nm, ins, ur, sp, mk];
    WrittenSkip(slots, 10);
    WrittenKeep(slots, 9, mw);
    assert Written(slots, 9) == [mw] + rest;
    SkipUnset(slots);
    WrittenKeep(slots, 0, ft);
    assert Written(slots, 0) == [ft] + ([mw] + rest);
  }

  /** The optional slots 1 to 8, all unset, are skipped. */
  lemma SkipUnset(slots: seq<Slot>)
    requires |slots| == 17
    requires forall i :: 1 <= i <= 8 ==> slots[i].value == None
    ensures Written(slots, 1) == Written(slots, 9)
  {
    WrittenSkip(slots, 8);
    WrittenSkip(slots, 7);
    WrittenSkip(slots, 6);
    WrittenSkip(slots, 5);
    WrittenSkip(slots, 4);
    WrittenSkip(slots, 3);
    WrittenSkip(slots, 2);
    WrittenSkip(slots, 1);
  }

  lemma PlainWrittenFrom11(slots: seq<Slot>, nm: Member, ins: Member, ur: Member, sp: Member, mk: Member)
    requires |slots| == 17
    requires slots[11] == Slot(nm.key, Some(nm.value))
    requires slots[12] == Slot(ins.key, Some(ins.value))
    requires slots[13] == Slot(ur.key, Some(ur.value))
    requires slots[14] == Slot(sp.key, Some(sp.value))
    requires slots[15].value == None
    requires slots[16] == Slot(mk.key, Some(mk.value))
    ensures Written(slots, 11) == [nm, ins, ur, sp, mk]
  {
    assert Written(slots, 17) == [];
    WrittenKeep(slots, 16, mk);
    WrittenSkip(slots, 15);
    WrittenKeep(slots, 14, sp);
    WrittenKeep(slots, 13, ur);
    WrittenKeep(slots, 12, ins);
    WrittenKeep(slots, 11, nm);
  }

  lemma PlainSlots(b: Block)
    requires Plain(b)
    ensures |Slots(b)| == 17
    ensures Slots(b)[0] == Slot("full_text", Some(Str(b.fullText)))
    ensures forall i :: 1 <= i <= 8 ==> Slots(b)[i].value == None
    ensures Slots(b)[9] == Slot("min_width", Some(MinWidthToJson(b.minWidth)))
    ensures Slots(b)[10].value == None
    ensures Slots(b)[11] == Slot("name", Some(Str(b.name)))
    ensures Slots(b)[12] == Slot("instance", Some(Str(b.instance)))
    ensures Slots(b)[13] == Slot("urgent", Some(Bool(b.urgent)))
    ensures Slots(b)[14] == Slot("separator", Some(Bool(b.separator)))
    ensures Slots(b)[15].value == None
    ensures Slots(b)[16] == Slot("markup", Some(Str(MarkupName(b.markup))))
  {
  }

  lemma WrittenSkip(slots: seq<Slot>, i: nat)
    requires i < |slots| && slots[i].value == None
    ensures Written(slots, i) == Written(slots, i + 1)
  {
  }

  lemma WrittenKeep(slots: seq<Slot>, i: nat, m: Member)
    requires i < |slots| && slots[i] == Slot(m.key, Some(m.value))
    ensures Written(slots, i) == [m] + Written(slots, i + 1)
  {
  }

  // ---------------------------------------------------------------------------
  // Serialization

  function AlignName(a: Align): string {
    match a
    case Left => "left"
    case Right => "right"
    case Center => "center"
  }

  function MarkupName(m: Markup): string {
    match m
    case Pango => "pango"
    case NoMarkup => "none"
  }

  function MinWidthToJson(w: MinWidth): Value {
    match w
    case Pixels(px) => Int(px)
    case WidthOf(text) => Str(text)
  }

  /** A field as the serializer sees it: its JSON name, and the value it
      writes, `None` when the field is optional, unset, and so skipped. */
  datatype Slot = Slot(key: string, value: Option<Value>)

  /** The fields of a block in declaration order. */
  function Slots(b: Block): seq<Slot> {
    [Slot("full_text", Some(Str(b.fullText))),
     Slot("short_text", OptionalText(b.shortText)),
     Slot("color", OptionalText(b.color)),
     Slot("background", OptionalText(b.background)),
     Slot("border", OptionalText(b.border)),
     Slot("border_top", OptionalNumber(b.borderTop)),
     Slot("border_bottom", OptionalNumber(b.borderBottom)),
     Slot("border_left", OptionalNumber(b.borderLeft)),
     Slot("border_right", OptionalNumber(b.borderRight)),
     Slot("min_width", Some(MinWidthToJson(b.minWidth))),
     Slot("align", match b.align case None => None case Some(a) => Some(Str(AlignName(a)))),
     Slot("name", Some(Str(b.name))),
     Slot("instance", Some(Str(b.instance))),
     Slot("urgent", Some(Bool(b.urgent))),
     Slot("separator", Some(Bool(b.separator))),
     Slot("separator_block_width", OptionalNumber(b.separatorBlockWidth)),
     Slot("markup", Some(Str(MarkupName(b.markup))))]
  }

  function OptionalText(o: Option<string>): Option<Value> {
    match o
    case None => None
    case Some(t) => Some(Str(t))
  }

  function OptionalNumber(o: Option<U32>): Option<Value> {
    match o
    case None => None
    case Some(n) => Some(Int(n))
  }

  /** The members written for the slots from position `i` on, in order,
      skipping the unset ones. */
  function Written(slots: seq<Slot>, i: nat): seq<Member>
    requires i <= |slots|
    decreases |slots| - i
  {
    if i == |slots| then []
    else
      (match slots[i].value case None => [] case Some(v) => [Member(slots[i].key, v)])
      + Written(slots, i + 1)
  }

  /** The members of a block's JSON object. */
  function BlockFields(b: Block): seq<Member> {
    Written(Slots(b), 0)
  }

  function BlockToJson(b: Block): Value {
    Object(BlockFields(b))
  }

  function StatusToJson(s: Status): Value {
    Array(seq(|s.blocks|, i requires 0 <= i < |s.blocks| => BlockToJson(s.blocks[i])))
  }

  function HeaderToJson(h: Header): Value {
    Object([
      Member("version", Int(h.version)),
      Member("click_events", Bool(h.clickEvents)),
      Member("cont_signal", Int(h.contSignal)),
      Member("stop_signal", Int(h.stopSignal))])
  }

  // ---------------------------------------------------------------------------
  // Properties of the serialized form

  /** The names of the slots from position `i` on that are written, order kept. */
  function PresentKeys(slots: seq<Slot>, i: nat): seq<string>
    requires i <= |slots|
    decreases |slots| - i
  {
    if i == |slots| then []
    else (if slots[i].value.Some? then [slots[i].key] else []) + PresentKeys(slots, i + 1)
  }

  lemma KeysAppend(a: seq<Member>, c: seq<Member>)
    ensures Keys(a + c) == Keys(a) + Keys(c)
  {
    assert forall i :: 0 <= i < |a + c| ==> Keys(a + c)[i] == (Keys(a) + Keys(c))[i];
  }

  /** The slots from position `i` on whose value is present, order kept. */
  function Present(slots: seq<Slot>, i: nat): (p: seq<Slot>)
    requires i <= |slots|
    ensures forall j :: 0 <= j < |p| ==> p[j].value.Some? && p[j] in slots[i..]
    decreases |slots| - i
  {
    if i == |slots| then []
    else (if slots[i].value.Some? then [slots[i]] else []) + Present(slots, i + 1)
  }

  /** The members written are the present slots, in order, each with its key
      and its value. */
  lemma KeysWritten(slots: seq<Slot>, i: nat)
    requires i <= |slots|
    ensures Keys(Written(slots, i)) == PresentKeys(slots, i)
    ensures var p := Present(slots, i);
      && |Written(slots, i)| == |p|
      && forall j :: 0 <= j < |p| ==> Written(slots, i)[j] == Member(p[j].key, p[j].value.value)
  {
    WrittenKeys(slots, i);
    WrittenMembers(slots, i);
  }

  lemma {:induction false} WrittenKeys(slots: seq<Slot>, i: nat)
    requires i <= |slots|
    ensures Keys(Written(slots, i)) == PresentKeys(slots, i)
    decreases |slots| - i
  {
    if i < |slots| {
      WrittenKeys(slots, i + 1);
      match slots[i].value
      case None =>
      case Some(v) => KeysAppend([Member(slots[i].key, v)], Written(slots, i + 1));
    }
  }

  lemma {:induction false} WrittenMembers(slots: seq<Slot>, i: nat)
    requires i <= |slots|
    ensures var p := Present(slots, i);
      && |Written(slots, i)| == |p|
      && forall j :: 0 <= j < |p| ==> Written(slots, i)[j] == Member(p[j].key, p[j].value.value)
    decreases |slots| - i
  {
    if i < |slots| {
      WrittenMembers(slots, i + 1);
      var w := Written(slots, i + 1);
      var q := Present(slots, i + 1);
      if slots[i].value.Some? {
        assert Written(slots, i) == [Member(slots[i].key, slots[i].value.value)] + w;
        assert Present(slots, i) == [slots[i]] + q;
      } else {
        assert Written(slots, i) == w;
        assert Present(slots, i) == q;
      }
    }
  }

  /** Every block lays its fields out in the same order: which key sits at
      which position does not depend on the block's values. */
  lemma SlotOrder(b1: Block, b2: Block)
    ensures |Slots(b1)| == |Slots(b2)| == 17
    ensures forall i :: 0 <= i < 17 ==> Slots(b1)[i].key == Slots(b2)[i].key
  {
  }

  /** The keys of a serialized block are the declared fields minus the unset
      optional ones, in declaration order. */
  lemma BlockKeyOrder(b: Block)
    ensures Keys(BlockFields(b)) == PresentKeys(Slots(b), 0)
  {
    KeysWritten(Slots(b), 0);
  }

  /** `Markup` and `Align` are written as distinct lower-case names. */
  lemma NamesAreLowercaseAndDistinct()
    ensures forall a: Align, c :: c in AlignName(a) ==> 'a' <= c <= 'z'
    ensures forall a1: Align, a2: Align :: AlignName(a1) == AlignName(a2) ==> a1 == a2
    ensures forall m: Markup, c :: c in MarkupName(m) ==> 'a' <= c <= 'z'
    ensures forall m1: Markup, m2: Markup :: MarkupName(m1) == MarkupName(m2) ==> m1 == m2
  {
  }

  /** Reading an untagged `MinWidth` back: a number is a pixel count, a
      string the text to measure. */
  function MinWidthFromJson(v: Value): (r: Option<MinWidth>) {
    match v
    case Int(n) => if 0 <= n < 0x1_0000_0000 then Some(Pixels(n)) else None
    case Str(t) => Some(WidthOf(t))
    case _ => None
  }

  /** Untagged serialization loses nothing: the JSON kind tells the variants apart. */
  lemma MinWidthUntagged(w: MinWidth)
    ensures MinWidthFromJson(MinWidthToJson(w)) == Some(w)
  {
  }

  /** The header line of the stream, as the tests of `get_header` and of the
      generator spell it out. */
  lemma HeaderText()
    ensures Render(HeaderToJson(NewHeader())) == "{" + "\"version\":1" + "," + "\"click_events\":false"
      + "," + "\"cont_signal\":18" + "," + "\"stop_signal\":19" + "}"
  {
    HeaderTextOf("version", "click_events", "cont_signal", "stop_signal");
  }

  // The keys are parameters so that the solver does not unfold the escaping
  // of literal keys.
  lemma HeaderTextOf(k1: string, k2: string, k3: string, k4: string)
    requires k1 == "version" && k2 == "click_events" && k3 == "cont_signal" && k4 == "stop_signal"
    ensures Render(Object([Member(k1, Int(1)), Member(k2, Bool(false)), Member(k3, Int(SIGCONT)), Member(k4, Int(SIGSTOP))]))
      == "{" + "\"version\":1" + "," + "\"click_events\":false" + "," + "\"cont_signal\":18" + "," + "\"stop_signal\":19" + "}"
  {
    var m1, m2, m3, m4 := Member(k1, Int(1)), Member(k2, Bool(false)), Member(k3, Int(SIGCONT)), Member(k4, Int(SIGSTOP));
    VersionText(k1);
    ClickEventsText(k2);
    ContSignalText(k3);
    StopSignalText(k4);
    FourMembers(m1, m2, m3, m4);
    Regroup(RenderMember(m1), RenderMember(m2), RenderMember(m3), RenderMember(m4));
  }

  /** A member whose key needs no escaping is written as the quoted key, a
      colon and the value. */
  lemma PlainMemberText(k: string, v: Value)
    requires forall i :: 0 <= i < |k| ==> k[i] as int >= 0x20 && k[i] != '"' && k[i] != '\\'
    ensures RenderMember(Member(k, v)) == "\"" + k + "\":" + Render(v)
  {
    EscapePlain(k);
  }

  // One lemma per header member; the key is a parameter so that the solver
  // does not unfold the escaping of a literal key.
  lemma VersionText(k: string)
    requires k == "version"
    ensures RenderMember(Member(k, Int(1))) == "\"version\":1"
  {
    PlainMemberText(k, Int(1));
    assert Render(Int(1)) == "1";
  }

  lemma ClickEventsText(k: string)
    requires k == "click_events"
    ensures RenderMember(Member(k, Bool(false))) == "\"click_events\":false"
  {
    PlainMemberText(k, Bool(false));
    assert "\"" + k == "\"click_events";
    assert "\"click_events" + "\":" == "\"click_events\":";
  }

  lemma ContSignalText(k: string)
    requires k == "cont_signal"
    ensures RenderMember(Member(k, Int(SIGCONT))) == "\"cont_signal\":18"
  {
    PlainMemberText(k, Int(SIGCONT));
    assert NatToString(18) == NatToString(1) + [DigitChar(8)];
    assert NatToString(1) == "1" && DigitChar(8) == '8';
    assert Render(Int(SIGCONT)) == "18";
  }

  lemma StopSignalText(k: string)
    requires k == "stop_signal"
    ensures RenderMember(Member(k, Int(SIGSTOP))) == "\"stop_signal\":19"
  {
    PlainMemberText(k, Int(SIGSTOP));
    assert NatToString(19) == NatToString(1) + [DigitChar(9)];
    assert NatToString(1) == "1" && DigitChar(9) == '9';
    assert Render(Int(SIGSTOP)) == "19";
  }

  lemma TailOne(m: Member)
    ensures RenderMembersTail([m]) == "," + RenderMember(m)
  {
    assert [m][1..] == [];
  }

  lemma TailCons(m: Member, ms: seq<Member>)
    ensures RenderMembersTail([m] + ms) == ("," + RenderMember(m)) + RenderMembersTail(ms)
  {
    assert ([m] + ms)[1..] == ms;
  }

  /** An object of four members, grouped as the writer builds it. */
  lemma FourMembers(a: Member, b: Member, c: Member, d: Member)
    ensures Render(Object([a, b, c, d]))
      == "{" + (RenderMember(a) + (("," + RenderMember(b)) + (("," + RenderMember(c)) + ("," + RenderMember(d))))) + "}"
  {
    TailOne(d);
    TailCons(c, [d]);
    assert [c] + [d] == [c, d];
    TailCons(b, [c, d]);
    assert [b] + [c, d] == [b, c, d];
    assert [a, b, c, d][1..] == [b, c, d];
  }

  lemma Regroup(a: string, b: string, c: string, d: string)
    ensures "{" + (a + (("," + b) + (("," + c) + ("," + d)))) + "}" == "{" + a + "," + b + "," + c + "," + d + "}"
  {
    assert ("," + c) + ("," + d) == "," + c + "," + d;
    assert ("," + b) + ("," + c + "," + d) == "," + b + "," + c + "," + d;
    assert a + ("," + b + "," + c + "," + d) == a + "," + b + "," + c + "," + d;
  }

  /** Text without quotes, backslashes or control characters is written as it is. */
  lemma {:induction false} EscapePlain(s: string)
    requires forall i :: 0 <= i < |s| ==> s[i] as int >= 0x20 && s[i] != '"' && s[i] != '\\'
    ensures Escape(s) == s
  {
    if s != [] {
      EscapePlain(s[1..]);
      assert [s[0]] + s[1..] == s;
    }
  }

  /** A status line read back as JSON is an array holding, in order, one
      object per block with exactly that block's members. */
  lemma StatusReadsBack(s: Status)
    ensures var r := Parse(Render(StatusToJson(s)));
      && r.Some? && r.value.Array? && |r.value.items| == |s.blocks|
      && forall i :: 0 <= i < |s.blocks| ==> r.value.items[i] == Object(BlockFields(s.blocks[i]))
  {
    ParseRenderDocument(StatusToJson(s));
  }

}
