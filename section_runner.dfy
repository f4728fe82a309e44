/**
 * The section runner of src/controller.rs (`SectionController`). Each cycle
 * it runs the section's command through the shell, gives up on a failed
 * command, trims the output's trailing ASCII white space, publishes a block
 * when that output differs from the cached one (or nothing is cached yet),
 * and then either stops (`Oneshot`) or sleeps for what is left of its
 * interval.
 *
 * The subprocess and the clock are inputs: each cycle is given the command's
 * `Outcome`. The channel blocks are sent on is the sequence `published`, and
 * the sleeps asked for are the sequence `slept`. A panic of `run` is a
 * `Crashed` phase that no later cycle leaves.
 */
module SectionRunner {
  import opened Wrappers
  import opened Protocol
  import opened Config

  /** What running the command gave: it could not be started at all, or it
      exited, successfully or not, with its standard output (decoded) after
      `elapsed` ticks counted from the start of the cycle. */
  datatype Outcome = NotStarted | Exited(success: bool, stdout: string, elapsed: nat)

  /** The runner's panics: the shell could not be started, the command
      failed, or the command took longer than the interval, so that the
      `Duration` subtraction computing the sleep underflowed. */
  datatype RunnerFault = SpawnFailed | CommandFailed | SleepUnderflow

  datatype RunnerPhase = Running | Finished | Crashed(fault: RunnerFault)

  /** The fields and channel of a runner as one value. */
  datatype RunnerState = RunnerState(
    phase: RunnerPhase,
    cache: Option<string>,
    published: seq<Block>,
    slept: seq<nat>)

  // ---------------------------------------------------------------------------
  // Trimming

  /** `u8::is_ascii_whitespace`: space, tab, line feed, form feed and carriage
      return (not the vertical tab). */
  predicate IsAsciiWhitespace(c: char) {
    c == ' ' || c == '\t' || c == '\n' || c as int == 0x0C || c == '\r'
  }

  /** `trim_ascii_end`: the longest prefix that does not end in ASCII white
      space; everything cut off is white space. */
  function TrimAsciiEnd(s: string): (r: string)
    ensures |r| <= |s| && r == s[..|r|]
    ensures r == [] || !IsAsciiWhitespace(r[|r| - 1])
    ensures forall i :: |r| <= i < |s| ==> IsAsciiWhitespace(s[i])
    decreases |s|
  {
    if s != [] && IsAsciiWhitespace(s[|s| - 1]) then TrimAsciiEnd(s[..|s| - 1]) else s
  }

  /** The text does not end in ASCII white space. */
  predicate Trimmed(s: string) {
    s == [] || !IsAsciiWhitespace(s[|s| - 1])
  }

  /** Trimming a trimmed text changes nothing. */
  lemma TrimIdempotent(s: string)
    ensures TrimAsciiEnd(TrimAsciiEnd(s)) == TrimAsciiEnd(s)
  {
  }

  /** Outputs that differ only in trailing white space trim to the same text. */
  lemma {:induction false} TrimIgnoresTrailingWhitespace(s: string, ws: string)
    requires forall i :: 0 <= i < |ws| ==> IsAsciiWhitespace(ws[i])
    ensures TrimAsciiEnd(s + ws) == TrimAsciiEnd(s)
    decreases |ws|
  {
    if ws == [] {
      assert s + ws == s;
    } else {
      var n := |ws| - 1;
      assert (s + ws)[..|s + ws| - 1] == s + ws[..n];
      TrimIgnoresTrailingWhitespace(s, ws[..n]);
    }
  }

  // ---------------------------------------------------------------------------
  // The loop of `run`

  /** The block a runner publishes: the output is the text, the name is
      "command" and the instance is the section's name. */
  function SectionBlock(section: Section, text: string): (b: Block)
    ensures b.fullText == text && b.minWidth == WidthOf(text)
    ensures b.name == "command" && b.instance == section.name
  {
    NewBlock(text, "command", section.name)
  }

  function Fresh(): RunnerState {
    RunnerState(Running, None, [], [])
  }

  /** One pass of the loop of `run`, given what the command did. */
  function Cycle(section: Section, st: RunnerState, o: Outcome): RunnerState {
    if !st.phase.Running? then st
    else
      match o
      case NotStarted => st.(phase := Crashed(SpawnFailed))
      case Exited(success, stdout, elapsed) =>
        if !success then st.(phase := Crashed(CommandFailed))
        else
          var text := TrimAsciiEnd(stdout);
          var st' :=
            if st.cache.None? || st.cache.value != text
            then st.(cache := Some(text), published := st.published + [SectionBlock(section, text)])
            else st;
          match section.interval
          case Oneshot => st'.(phase := Finished)
          case Seconds(d) =>
            if elapsed > d then st'.(phase := Crashed(SleepUnderflow))
            else st'.(slept := st'.slept + [d - elapsed])
  }

  /** The cycles run one after the other. */
  function Cycles(section: Section, st: RunnerState, outcomes: seq<Outcome>): RunnerState
    decreases |outcomes|
  {
    if outcomes == [] then st
    else
      var n := |outcomes| - 1;
      Cycle(section, Cycles(section, st, outcomes[..n]), outcomes[n])
  }

  // ---------------------------------------------------------------------------
  // The runner object

  /** `SectionController`: its section, the cached output, and (as fields)
      the blocks sent so far and the sleeps asked for. */
  class SectionController {
    const section: Section
    var phase: RunnerPhase
    var cache: Option<string>
    var published: seq<Block>
    var slept: seq<nat>

    ghost function State(): RunnerState
      reads this
    {
      RunnerState(phase, cache, published, slept)
    }

    /** `SectionController::new`: nothing cached, nothing sent. */
    constructor (section: Section)
      ensures this.section == section && State() == Fresh()
    {
      this.section := section;
      phase := Running;
      cache := None;
      published := [];
      slept := [];
    }

    /** The body of the loop of `run`. */
    method RunCycle(o: Outcome)
      requires phase.Running?
      modifies this
      ensures State() == Cycle(section, old(State()), o)
    {
      match o {
        case NotStarted =>
          phase := Crashed(SpawnFailed);
        case Exited(success, stdout, elapsed) =>
          if !success {
            phase := Crashed(CommandFailed);
            return;
          }
          var text := TrimAsciiEnd(stdout);
          if cache.None? || cache.value != text {
            cache := Some(text);
            published := published + [SectionBlock(section, text)];
          }
          match section.interval {
            case Oneshot =>
              phase := Finished;
            case Seconds(d) =>
              if elapsed > d {
                phase := Crashed(SleepUnderflow);
              } else {
                slept := slept + [d - elapsed];
              }
          }
      }
    }

    /** `run`: cycle until the section is done or the runner panics, each
        cycle given the next outcome; `used` outcomes are consumed. */
    method Run(outcomes: seq<Outcome>) returns (used: nat)
      modifies this
      ensures used <= |outcomes|
      ensures State() == Cycles(section, old(State()), outcomes[..used])
      ensures State() == Cycles(section, old(State()), outcomes)
      ensures used < |outcomes| ==> !phase.Running?
    {
      ghost var start := State();
      used := 0;
      while used < |outcomes| && phase.Running?
        invariant used <= |outcomes|
        invariant State() == Cycles(section, start, outcomes[..used])
      {
        RunCycle(outcomes[used]);
        assert outcomes[..used + 1][..used] == outcomes[..used];
        used := used + 1;
      }
      if used == |outcomes| {
        assert outcomes[..used] == outcomes;
      } else {
        StoppedStays(section, start, outcomes, used);
      }
    }
  }

  // ---------------------------------------------------------------------------
  // Properties

  /** Once the runner has stopped, further outcomes change nothing. */
  lemma {:induction false} StoppedStays(section: Section, st: RunnerState, outcomes: seq<Outcome>, i: nat)
    requires i <= |outcomes| && !Cycles(section, st, outcomes[..i]).phase.Running?
    ensures Cycles(section, st, outcomes) == Cycles(section, st, outcomes[..i])
    decreases |outcomes|
  {
    if i < |outcomes| {
      var n := |outcomes| - 1;
      assert outcomes[..n][..i] == outcomes[..i];
      StoppedStays(section, st, outcomes[..n], i);
    } else {
      assert outcomes[..i] == outcomes;
    }
  }

  /** The blocks sent and the cache agree: every block sent is the section's
      block of a trimmed output; no two consecutive blocks carry the same
      text; the cache is empty exactly until the first block and then holds
      the text of the last one. */
  predicate CacheMatches(section: Section, st: RunnerState) {
    && (forall i :: 0 <= i < |st.published| ==>
          st.published[i] == SectionBlock(section, st.published[i].fullText)
          && Trimmed(st.published[i].fullText))
    && (forall i :: 0 <= i < |st.published| - 1 ==> st.published[i].fullText != st.published[i + 1].fullText)
    && (st.cache.None? <==> st.published == [])
    && (st.cache.Some? ==> st.cache.value == st.published[|st.published| - 1].fullText)
  }

  /** What holds of a runner at every point: the blocks and the cache agree,
      and a `Oneshot` runner sends at most one block, sends none while still
      running, never sleeps, and is the only kind that finishes. */
  predicate Invariant(section: Section, st: RunnerState) {
    && CacheMatches(section, st)
    && (section.interval.Oneshot? ==> |st.published| <= 1 && st.slept == [])
    && (section.interval.Oneshot? && st.phase.Running? ==> st.published == [])
    && (st.phase.Finished? ==> section.interval.Oneshot?)
  }

  lemma CycleKeeps(section: Section, st: RunnerState, o: Outcome)
    requires Invariant(section, st)
    ensures Invariant(section, Cycle(section, st, o))
  {
    if !st.phase.Running? {
      return;
    }
    match o
    case NotStarted =>
      assert Cycle(section, st, o) == st.(phase := Crashed(SpawnFailed));
    case Exited(success, stdout, elapsed) =>
      if !success {
        assert Cycle(section, st, o) == st.(phase := Crashed(CommandFailed));
      } else {
        var text := TrimAsciiEnd(stdout);
        var st' :=
          if st.cache.None? || st.cache.value != text
          then st.(cache := Some(text), published := st.published + [SectionBlock(section, text)])
          else st;
        PublishKeeps(section, st, stdout);
        assert CacheMatches(section, st');
        match section.interval
        case Oneshot =>
          assert Cycle(section, st, o) == st'.(phase := Finished);
          assert |st'.published| == 1 && st'.slept == [];
        case Seconds(d) =>
          if elapsed > d {
            assert Cycle(section, st, o) == st'.(phase := Crashed(SleepUnderflow));
          } else {
            assert Cycle(section, st, o) == st'.(slept := st'.slept + [d - elapsed]);
          }
      }
  }

  /** Publishing a trimmed output when it differs from the cache keeps the
      blocks and the cache in agreement, and adds at most one block. */
  lemma PublishKeeps(section: Section, st: RunnerState, stdout: string)
    requires CacheMatches(section, st)
    ensures var text := TrimAsciiEnd(stdout);
      var st' :=
        if st.cache.None? || st.cache.value != text
        then st.(cache := Some(text), published := st.published + [SectionBlock(section, text)])
        else st;
      && CacheMatches(section, st')
      && (st.published == [] ==> |st'.published| == 1)
  {
    var text := TrimAsciiEnd(stdout);
    if st.cache.None? || st.cache.value != text {
      AppendKeeps(section, st.published, text);
    }
  }

  /** Appending the block of a trimmed text that differs from the last one
      keeps the blocks sent in agreement with a cache holding that text. */
  lemma AppendKeeps(section: Section, published: seq<Block>, text: string)
    requires forall i :: 0 <= i < |published| ==>
      published[i] == SectionBlock(section, published[i].fullText)
      && Trimmed(published[i].fullText)
    requires forall i :: 0 <= i < |published| - 1 ==> published[i].fullText != published[i + 1].fullText
    requires published != [] ==> published[|published| - 1].fullText != text
    requires Trimmed(text)
    ensures CacheMatches(section, RunnerState(Running, Some(text), published + [SectionBlock(section, text)], []))
  {
    var p := published + [SectionBlock(section, text)];
    assert forall i :: 0 <= i < |published| ==> p[i] == published[i];
    assert p[|p| - 1] == SectionBlock(section, text);
  }

  /** Every state a fresh runner reaches keeps the invariant. */
  lemma {:induction false} CyclesKeep(section: Section, outcomes: seq<Outcome>)
    ensures Invariant(section, Cycles(section, Fresh(), outcomes))
    decreases |outcomes|
  {
    if outcomes != [] {
      var n := |outcomes| - 1;
      CyclesKeep(section, outcomes[..n]);
      CycleKeeps(section, Cycles(section, Fresh(), outcomes[..n]), outcomes[n]);
    }
  }

  /** A successful cycle publishes exactly when nothing is cached or the
      trimmed output differs from the cache, and then it publishes the
      section's block of that output and caches it; otherwise the cache and
      the blocks sent stay as they were. */
  lemma CycleDedup(section: Section, st: RunnerState, stdout: string, elapsed: nat)
    requires st.phase.Running?
    ensures var text := TrimAsciiEnd(stdout);
      var r := Cycle(section, st, Exited(true, stdout, elapsed));
      && r.cache == Some(text)
      && (st.cache.None? || st.cache.value != text <==> r.published == st.published + [SectionBlock(section, text)])
      && (st.cache == Some(text) <==> r.published == st.published)
  {
  }

  /** A failed command, or one that cannot be started, panics the runner
      without sending anything; from then on nothing is sent. */
  lemma FailureStops(section: Section, st: RunnerState, o: Outcome, later: seq<Outcome>)
    requires st.phase.Running? && (o.NotStarted? || !o.success)
    ensures var r := Cycle(section, st, o);
      && r.phase.Crashed? && r.published == st.published && r.cache == st.cache
      && Cycles(section, r, later) == r
  {
    StoppedStays(section, Cycle(section, st, o), later, 0);
  }

  /** A `Oneshot` section runs its command once: a successful first cycle
      publishes exactly one block and finishes the runner, and no later
      outcome changes anything. */
  lemma OneshotOnce(section: Section, stdout: string, elapsed: nat, later: seq<Outcome>)
    requires section.interval.Oneshot?
    ensures var outcomes := [Exited(true, stdout, elapsed)] + later;
      var r := Cycles(section, Fresh(), outcomes);
      && r.phase.Finished?
      && r.published == [SectionBlock(section, TrimAsciiEnd(stdout))]
  {
    var first := Exited(true, stdout, elapsed);
    var outcomes := [first] + later;
    assert outcomes[..1] == [first];
    assert Cycles(section, Fresh(), outcomes[..1]) == Cycle(section, Fresh(), first) by {
      assert outcomes[..1][..0] == [];
    }
    StoppedStays(section, Fresh(), outcomes, 1);
  }

  /** A periodic runner whose command keeps succeeding within its interval
      keeps running and sleeps for the rest of the interval each cycle. */
  lemma PeriodicSleeps(section: Section, st: RunnerState, stdout: string, elapsed: nat)
    requires st.phase.Running? && section.interval.Seconds?
    ensures var r := Cycle(section, st, Exited(true, stdout, elapsed));
      && (elapsed <= section.interval.duration ==>
            r.phase.Running? && r.slept == st.slept + [section.interval.duration - elapsed])
      && (elapsed > section.interval.duration ==> r.phase == Crashed(SleepUnderflow) && r.slept == st.slept)
  {
  }
}
