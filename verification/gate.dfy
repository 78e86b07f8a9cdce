/** The client half of a relay session. Every client frame, and every firing of
    the idle timer, becomes a (possibly empty) list of upstream events. The only
    state is the number of audio bytes appended since the last commit or clear:
    committing an empty input buffer is an error upstream, so a commit (and the
    `response.create` that follows it) is only sent while that number is positive. */
module Gate {
  import opened Upstream
  import Seqs

  /** A frame read from the client socket. */
  datatype Frame = Binary(data: seq<bv8>) | Text(command: string)

  /** What the translator reacts to: a client frame, or the idle timer firing. */
  datatype Input = Received(frame: Frame) | IdleFired
  {
    /** The inputs that ask for the buffered audio to be committed. */
    predicate AsksCommit() {
      IdleFired? || (Received? && frame == Text("commit"))
    }

    /** Text commands the translator does not recognise. */
    predicate IsIgnoredText() {
      Received? && frame.Text? && frame.command !in {"commit", "clear", "cancel"}
    }
  }

  /** The counter after a step (or a run) and the events it emitted. */
  datatype Outcome = Outcome(count: nat, out: seq<Event>)

  // ---------------------------------------------------------------------------
  // Reference definitions over emitted event logs

  /** Bytes held by the upstream input buffer after `e`, given `before` held before it. */
  function AfterEvent(before: nat, e: Event): nat
  {
    match e
    case Append(audio) => before + |audio|
    case Commit => 0
    case Clear => 0
    case _ => before
  }

  /** Bytes the upstream input buffer holds after `log`, starting from `start`. */
  function PendingAfter(start: nat, log: seq<Event>): nat
    decreases |log|
  {
    if |log| == 0 then start else PendingAfter(AfterEvent(start, log[0]), log[1..])
  }

  /** Bytes appended since the last commit or clear of a log that starts with an empty buffer. */
  function Pending(log: seq<Event>): nat
  {
    PendingAfter(0, log)
  }

  /** Some non-empty append occurs in `log` after its last commit or clear. */
  ghost predicate FreshAudio(log: seq<Event>)
  {
    exists j :: 0 <= j < |log| && log[j].Append? && |log[j].audio| > 0 &&
      forall k :: j < k < |log| ==> !log[k].Resets()
  }

  /** Starting from `start` buffered bytes, every commit in `log` happens while the
      buffer is non-empty and is immediately followed by the audio `response.create`,
      and every `response.create` immediately follows a commit. */
  ghost predicate GatedFrom(start: nat, log: seq<Event>)
  {
    && (forall i :: 0 <= i < |log| && log[i].Commit? ==>
          PendingAfter(start, log[..i]) > 0 && i + 1 < |log| && log[i + 1] == CreateAudio)
    && (forall i :: 0 <= i < |log| && log[i].ResponseCreate? ==> 0 < i && log[i - 1].Commit?)
  }

  ghost predicate Gated(log: seq<Event>)
  {
    GatedFrom(0, log)
  }

  /** The translator never emits the session configuration: that is sent once, before it runs. */
  ghost predicate NoSessionUpdate(log: seq<Event>)
  {
    forall i :: 0 <= i < |log| ==> !log[i].SessionUpdate?
  }

  function AudioPart(e: Event): seq<seq<bv8>>
  {
    if e.Append? then [e.audio] else []
  }

  /** The audio payloads of the append events of `log`, in order. */
  function AudioOf(log: seq<Event>): seq<seq<bv8>>
  {
    Seqs.Flatten(log, AudioPart)
  }

  function FramePart(input: Input): seq<seq<bv8>>
  {
    if input.Received? && input.frame.Binary? then [input.frame.data] else []
  }

  /** The payloads of the binary frames among `inputs`, in order. */
  function FramesOf(inputs: seq<Input>): seq<seq<bv8>>
  {
    Seqs.Flatten(inputs, FramePart)
  }

  function ControlPart(e: Event): seq<string>
  {
    match e
    case Clear => ["clear"]
    case Cancel => ["cancel"]
    case _ => []
  }

  /** The clear and cancel events of `log`, named by the command that asks for them. */
  function ControlsOf(log: seq<Event>): seq<string>
  {
    Seqs.Flatten(log, ControlPart)
  }

  function CommandPart(input: Input): seq<string>
  {
    if input.Received? && input.frame.Text? && input.frame.command in {"clear", "cancel"}
    then [input.frame.command] else []
  }

  /** The clear and cancel commands among `inputs`, in order. */
  function CommandsOf(inputs: seq<Input>): seq<string>
  {
    Seqs.Flatten(inputs, CommandPart)
  }

  // ---------------------------------------------------------------------------
  // The translator

  /** Commit and request a spoken response, but only if audio was appended since the
      last commit or clear; otherwise do nothing. Shared by the idle timer and the
      `commit` command. */
  function CommitIfPending(count: nat): (r: Outcome)
    // what the upstream buffer holds afterwards, and the gate, against the reference
    ensures r.count == PendingAfter(count, r.out)
    ensures GatedFrom(count, r.out)
    ensures count > 0 ==> r.out == [Commit, CreateAudio] && r.count == 0
    ensures count == 0 ==> r.out == [] && r.count == count
  {
    if count > 0 then
      CommitPairFacts(count);
      Outcome(0, [Commit, CreateAudio])
    else Outcome(count, [])
  }

  /** One step of the translator from counter `count`. */
  function Step(count: nat, input: Input): (r: Outcome)
    // the counter keeps tracking what the emitted events leave in the upstream buffer
    ensures r.count == PendingAfter(count, r.out)
    ensures GatedFrom(count, r.out)
    ensures NoSessionUpdate(r.out)
    // each binary frame becomes exactly one append, each clear/cancel exactly one event
    ensures AudioOf(r.out) == FramesOf([input])
    ensures ControlsOf(r.out) == CommandsOf([input])
    ensures input.Received? && input.frame.Binary? ==>
      r.out == [Append(input.frame.data)] && r.count == count + |input.frame.data|
    ensures input.AsksCommit() ==>
      (count > 0 ==> r.out == [Commit, CreateAudio] && r.count == 0) &&
      (count == 0 ==> r.out == [] && r.count == count)
    ensures input == Received(Text("clear")) ==> r.out == [Clear] && r.count == 0
    ensures input == Received(Text("cancel")) ==> r.out == [Cancel] && r.count == count
    ensures input.IsIgnoredText() ==> r.out == [] && r.count == count
  {
    StepKeepsInvariants(count, input);
    StepTable(count, input)
  }

  /** The trace invariants hold of each case of the translator. */
  lemma StepKeepsInvariants(count: nat, input: Input)
    ensures var r := StepTable(count, input);
      && r.count == PendingAfter(count, r.out)
      && GatedFrom(count, r.out)
      && NoSessionUpdate(r.out)
      && AudioOf(r.out) == FramesOf([input])
      && ControlsOf(r.out) == CommandsOf([input])
  {
    Seqs.FlattenSmall([input], FramePart);
    Seqs.FlattenSmall([input], CommandPart);
    if input.AsksCommit() {
      CommitInputFacts(count, input);
    } else if input.Received? && input.frame.Binary? {
      SingleEventFacts(count, Append(input.frame.data));
    } else {
      TextInputFacts(count, input);
    }
  }

  /** The idle timer and the `commit` command emit nothing but a gated commit pair. */
  lemma CommitInputFacts(count: nat, input: Input)
    requires input.AsksCommit()
    ensures var r := StepTable(count, input);
      && r == CommitIfPending(count)
      && NoSessionUpdate(r.out) && AudioOf(r.out) == [] && ControlsOf(r.out) == []
  {
    if count > 0 {
      CommitPairFacts(count);
    }
  }

  /** Text commands other than `commit` emit at most a clear or a cancel. */
  lemma TextInputFacts(count: nat, input: Input)
    requires input.Received? && input.frame.Text? && input.frame.command != "commit"
    ensures var r := StepTable(count, input);
      && r.count == PendingAfter(count, r.out)
      && GatedFrom(count, r.out)
      && NoSessionUpdate(r.out)
      && AudioOf(r.out) == []
      && ControlsOf(r.out) == CommandPart(input)
  {
    var command := input.frame.command;
    if command == "clear" {
      SingleEventFacts(count, Clear);
    } else if command == "cancel" {
      SingleEventFacts(count, Cancel);
    }
  }

  /** A commit pair sent with bytes pending empties the buffer and is gated. */
  lemma CommitPairFacts(count: nat)
    requires count > 0
    ensures PendingAfter(count, [Commit, CreateAudio]) == 0
    ensures GatedFrom(count, [Commit, CreateAudio])
    ensures NoSessionUpdate([Commit, CreateAudio])
    ensures AudioOf([Commit, CreateAudio]) == [] && ControlsOf([Commit, CreateAudio]) == []
  {
    var log := [Commit, CreateAudio];
    PendingAfterSmall(count, log);
    assert log[..0] == [];
    Seqs.FlattenSmall(log, AudioPart);
    Seqs.FlattenSmall(log, ControlPart);
  }

  /** A single event other than a commit or a `response.create` is trivially gated. */
  lemma SingleEventFacts(count: nat, e: Event)
    ensures PendingAfter(count, [e]) == AfterEvent(count, e)
    ensures !e.Commit? && !e.ResponseCreate? ==> GatedFrom(count, [e])
    ensures AudioOf([e]) == AudioPart(e) && ControlsOf([e]) == ControlPart(e)
  {
    PendingAfterSmall(count, [e]);
    Seqs.FlattenSmall([e], AudioPart);
    Seqs.FlattenSmall([e], ControlPart);
  }

  /** The case analysis of the translator, as the read loop and the idle goroutine perform it. */
  function StepTable(count: nat, input: Input): Outcome
  {
    match input
    case IdleFired => CommitIfPending(count)
    case Received(Binary(data)) => Outcome(count + |data|, [Append(data)])
    case Received(Text(command)) =>
      if command == "commit" then CommitIfPending(count)
      else if command == "clear" then Outcome(0, [Clear])
      else if command == "cancel" then Outcome(count, [Cancel])
      else Outcome(count, [])
  }

  /** The translator run over a whole trace of inputs, starting with an empty buffer. */
  function Run(inputs: seq<Input>): (r: Outcome)
    ensures r.count == Pending(r.out)
    ensures Gated(r.out)
    ensures NoSessionUpdate(r.out)
    ensures AudioOf(r.out) == FramesOf(inputs)
    ensures ControlsOf(r.out) == CommandsOf(inputs)
    decreases |inputs|
  {
    if |inputs| == 0 then Outcome(0, [])
    else
      var prev := Run(inputs[..|inputs| - 1]);
      var step := Step(prev.count, inputs[|inputs| - 1]);
      RunStepFacts(inputs, prev, step);
      Outcome(step.count, prev.out + step.out)
  }

  /** The induction step of `Run`: one more input keeps every trace invariant. */
  lemma RunStepFacts(inputs: seq<Input>, prev: Outcome, step: Outcome)
    requires |inputs| > 0
    requires prev.count == Pending(prev.out) && Gated(prev.out) && NoSessionUpdate(prev.out)
    requires AudioOf(prev.out) == FramesOf(inputs[..|inputs| - 1])
    requires ControlsOf(prev.out) == CommandsOf(inputs[..|inputs| - 1])
    requires step == Step(prev.count, inputs[|inputs| - 1])
    ensures var r := Outcome(step.count, prev.out + step.out);
      && r.count == Pending(r.out) && Gated(r.out) && NoSessionUpdate(r.out)
      && AudioOf(r.out) == FramesOf(inputs)
      && ControlsOf(r.out) == CommandsOf(inputs)
  {
    var before := inputs[..|inputs| - 1];
    var last := inputs[|inputs| - 1];
    assert inputs == before + [last];
    ExtendInvariants(prev.out, step.out, prev.count, step.count);
    Seqs.FlattenConcat(prev.out, step.out, AudioPart);
    Seqs.FlattenConcat(before, [last], FramePart);
    Seqs.FlattenConcat(prev.out, step.out, ControlPart);
    Seqs.FlattenConcat(before, [last], CommandPart);
  }

  // ---------------------------------------------------------------------------
  // Lemmas about the reference definitions

  /** Replaying a log in two pieces gives the same buffered byte count as replaying it whole. */
  lemma {:induction false} PendingConcat(start: nat, a: seq<Event>, b: seq<Event>)
    ensures PendingAfter(start, a + b) == PendingAfter(PendingAfter(start, a), b)
    decreases |a|
  {
    if |a| == 0 {
      assert a + b == b;
    } else {
      assert (a + b)[0] == a[0];
      assert (a + b)[1..] == a[1..] + b;
      PendingConcat(AfterEvent(start, a[0]), a[1..], b);
    }
  }

  /** The counter and gate invariants of a log extend to the log followed by one more step. */
  lemma ExtendInvariants(a: seq<Event>, b: seq<Event>, before: nat, after: nat)
    requires before == Pending(a) && Gated(a) && NoSessionUpdate(a)
    requires after == PendingAfter(before, b) && GatedFrom(before, b) && NoSessionUpdate(b)
    ensures after == Pending(a + b) && Gated(a + b) && NoSessionUpdate(a + b)
  {
    PendingConcat(0, a, b);
    GatedConcat(0, a, b);
    NoSessionUpdateConcat(a, b);
  }

  /** Logs without a configuration event compose. */
  lemma NoSessionUpdateConcat(a: seq<Event>, b: seq<Event>)
    requires NoSessionUpdate(a) && NoSessionUpdate(b)
    ensures NoSessionUpdate(a + b)
  {
  }

  /** Replaying a log of at most two events, spelled out. */
  lemma PendingAfterSmall(start: nat, log: seq<Event>)
    requires |log| <= 2
    ensures |log| == 1 ==> PendingAfter(start, log) == AfterEvent(start, log[0])
    ensures |log| == 2 ==> PendingAfter(start, log) == AfterEvent(AfterEvent(start, log[0]), log[1])
  {
    if |log| == 2 {
      assert PendingAfter(AfterEvent(start, log[0]), log[1..]) ==
        PendingAfter(AfterEvent(AfterEvent(start, log[0]), log[1]), log[2..]);
    }
  }

  /** Gated logs compose: the second piece is gated from where the first left the buffer. */
  lemma GatedConcat(start: nat, a: seq<Event>, b: seq<Event>)
    requires GatedFrom(start, a)
    requires GatedFrom(PendingAfter(start, a), b)
    ensures GatedFrom(start, a + b)
  {
    var ab := a + b;
    forall i | 0 <= i < |ab| && ab[i].Commit?
      ensures PendingAfter(start, ab[..i]) > 0 && i + 1 < |ab| && ab[i + 1] == CreateAudio
    {
      if i < |a| {
        assert a[i].Commit?;
        assert ab[..i] == a[..i];
      } else {
        var j := i - |a|;
        assert b[j].Commit?;
        assert ab[..i] == a + b[..j];
        PendingConcat(start, a, b[..j]);
      }
    }
    forall i | 0 <= i < |ab| && ab[i].ResponseCreate?
      ensures 0 < i && ab[i - 1].Commit?
    {
      if i < |a| {
        assert a[i].ResponseCreate?;
      } else {
        assert b[i - |a|].ResponseCreate?;
      }
    }
  }

  /** The buffered byte count is positive exactly when some non-empty append
      happened after the last commit or clear. */
  lemma {:induction false} PendingIffFreshAudio(log: seq<Event>)
    ensures Pending(log) > 0 <==> FreshAudio(log)
    decreases |log|
  {
    if |log| > 0 {
      var before := log[..|log| - 1];
      var last := log[|log| - 1];
      PendingLast(log);
      PendingIffFreshAudio(before);
      if last.Resets() {
        FreshAudioAfterReset(log);
      } else if last.Append? && |last.audio| > 0 {
        assert log[|log| - 1].Append? && |log[|log| - 1].audio| > 0;
      } else {
        FreshAudioAfterNeutral(log);
      }
    }
  }

  /** The buffered byte count of a log is that of its last event applied to the rest. */
  lemma PendingLast(log: seq<Event>)
    requires |log| > 0
    ensures Pending(log) == AfterEvent(Pending(log[..|log| - 1]), log[|log| - 1])
  {
    var before := log[..|log| - 1];
    assert log == before + [log[|log| - 1]];
    PendingConcat(0, before, [log[|log| - 1]]);
    PendingAfterSmall(Pending(before), [log[|log| - 1]]);
  }

  /** A log ending in a commit or clear has no fresh audio. */
  lemma FreshAudioAfterReset(log: seq<Event>)
    requires |log| > 0 && log[|log| - 1].Resets()
    ensures !FreshAudio(log)
  {
  }

  /** An event that neither resets nor adds audio leaves the freshness of a log alone. */
  lemma FreshAudioAfterNeutral(log: seq<Event>)
    requires |log| > 0
    requires !log[|log| - 1].Resets()
    requires !(log[|log| - 1].Append? && |log[|log| - 1].audio| > 0)
    ensures FreshAudio(log) <==> FreshAudio(log[..|log| - 1])
  {
    var n := |log| - 1;
    var before := log[..n];
    if FreshAudio(before) {
      var j :| 0 <= j < |before| && before[j].Append? && |before[j].audio| > 0 &&
        forall k :: j < k < |before| ==> !before[k].Resets();
      assert log[j] == before[j];
      assert forall k :: j < k < |log| ==> !log[k].Resets() by {
        forall k | j < k < |log| ensures !log[k].Resets() {
          if k < n {
            assert log[k] == before[k];
          }
        }
      }
    }
    if FreshAudio(log) {
      var j :| 0 <= j < |log| && log[j].Append? && |log[j].audio| > 0 &&
        forall k :: j < k < |log| ==> !log[k].Resets();
      assert j < n;
      assert before[j] == log[j];
      assert forall k :: j < k < |before| ==> !before[k].Resets() by {
        forall k | j < k < |before| ensures !before[k].Resets() {
          assert before[k] == log[k];
        }
      }
    }
  }

  // ---------------------------------------------------------------------------
  // Trace properties of the translator

  /** Every commit the translator sends is preceded, since the previous commit or
      clear, by at least one non-empty append, and is followed by `response.create`. */
  lemma CommitsFollowFreshAudio(inputs: seq<Input>)
    ensures forall i :: 0 <= i < |Run(inputs).out| && Run(inputs).out[i].Commit? ==>
      FreshAudio(Run(inputs).out[..i]) && i + 1 < |Run(inputs).out| &&
      Run(inputs).out[i + 1] == CreateAudio
  {
    var out := Run(inputs).out;
    forall i | 0 <= i < |out| && out[i].Commit?
      ensures FreshAudio(out[..i]) && i + 1 < |out| && out[i + 1] == CreateAudio
    {
      PendingIffFreshAudio(out[..i]);
    }
  }

  /** The log holds neither a commit nor a `response.create`. */
  ghost predicate NoCommit(log: seq<Event>)
  {
    forall i :: 0 <= i < |log| ==> !log[i].Commit? && !log[i].ResponseCreate?
  }

  /** The translator never revises what it has sent: the events for later inputs are
      appended after those for earlier ones. So a `cancel` sent after some frames is written
      to the upstream after their appends. */
  lemma {:induction false} RunExtendsPrefix(inputs: seq<Input>, k: nat)
    requires k <= |inputs|
    ensures Run(inputs[..k]).out <= Run(inputs).out
    decreases |inputs|
  {
    if k == |inputs| {
      assert inputs[..k] == inputs;
    } else {
      var init := inputs[..|inputs| - 1];
      assert init[..k] == inputs[..k];
      RunExtendsPrefix(init, k);
      RunLast(inputs);
      PrefixTransitive(Run(inputs[..k]).out, Run(init).out, Run(inputs).out);
    }
  }

  /** A run is the run of all but its last input, followed by one step. */
  lemma RunUnfold(inputs: seq<Input>)
    requires |inputs| > 0
    ensures var prev := Run(inputs[..|inputs| - 1]);
      var step := Step(prev.count, inputs[|inputs| - 1]);
      Run(inputs) == Outcome(step.count, prev.out + step.out)
  {
  }

  /** Running one more input is one more step from where the shorter run stopped. */
  lemma RunSnoc(inputs: seq<Input>, input: Input)
    ensures var prev := Run(inputs);
      var step := Step(prev.count, input);
      Run(inputs + [input]) == Outcome(step.count, prev.out + step.out)
  {
    assert (inputs + [input])[..|inputs|] == inputs;
  }

  /** The events a run emits for its last input come after those of the run before it. */
  lemma RunLast(inputs: seq<Input>)
    requires |inputs| > 0
    ensures Run(inputs[..|inputs| - 1]).out <= Run(inputs).out
  {
  }

  lemma PrefixTransitive<T>(a: seq<T>, b: seq<T>, c: seq<T>)
    requires a <= b && b <= c
    ensures a <= c
  {
  }

  /** Empty binary frames never enable a commit: a trace whose binary frames are all
      empty emits no commit and no `response.create`, and leaves the counter at zero. */
  lemma {:induction false} EmptyFramesNeverCommit(inputs: seq<Input>)
    requires forall i :: 0 <= i < |inputs| && inputs[i].Received? && inputs[i].frame.Binary? ==>
      |inputs[i].frame.data| == 0
    ensures Run(inputs).count == 0
    ensures NoCommit(Run(inputs).out)
    decreases |inputs|
  {
    if |inputs| > 0 {
      var before := inputs[..|inputs| - 1];
      var last := inputs[|inputs| - 1];
      assert forall i :: 0 <= i < |before| ==> before[i] == inputs[i];
      EmptyFramesNeverCommit(before);
      var prev := Run(before);
      var step := Step(prev.count, last);
      assert NoCommit(step.out) && step.count == 0 by {
        assert last.Received? && last.frame.Binary? ==> |last.frame.data| == 0;
      }
      RunUnfold(inputs);
      NoCommitConcat(prev.out, step.out);
    }
  }

  lemma NoCommitConcat(a: seq<Event>, b: seq<Event>)
    requires NoCommit(a) && NoCommit(b)
    ensures NoCommit(a + b)
  {
  }
}
