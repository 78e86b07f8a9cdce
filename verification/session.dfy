/** One relay session: the `session.update` sent on connect, then an interleaving of
    client frames, idle-timer firings and upstream messages, each handled by the
    translator or the dispatcher, until a read fails.

    Read failures end things unevenly. A failed client read makes the handler
    return, which closes both sockets: nothing happens afterwards. A failed
    upstream read cancels the session context, which stops the upstream reader
    and the idle goroutine, but the client read loop does not watch the context
    and goes on translating frames until the client read itself fails. */
module Session {
  import opened Wrappers
  import opened Upstream
  import Seqs
  import Gate
  import Dispatch

  datatype Phase = Live | UpstreamLost | Ended

  datatype State = State(count: nat, phase: Phase)

  /** Everything that can happen to a running session, in the order it is observed. */
  datatype Happening =
    | ClientRead(frame: Gate.Frame)
    | ClientReadFailed
    | IdleFired
    | UpstreamRead(message: Dispatch.Inbound)
    | UpstreamReadFailed

  /** A message written to one of the two sockets. */
  datatype Wire = ToUpstream(event: Event) | ToClient(message: Dispatch.ClientMessage)

  datatype Outcome = Outcome(state: State, out: seq<Wire>)

  function UpstreamPart(w: Wire): seq<Event>
  {
    if w.ToUpstream? then [w.event] else []
  }

  /** The upstream events among `ws`, in order. */
  function UpstreamOf(ws: seq<Wire>): seq<Event>
  {
    Seqs.Flatten(ws, UpstreamPart)
  }

  function ClientPart(w: Wire): seq<Dispatch.ClientMessage>
  {
    if w.ToClient? then [w.message] else []
  }

  /** The client messages among `ws`, in order. */
  function ClientOf(ws: seq<Wire>): seq<Dispatch.ClientMessage>
  {
    Seqs.Flatten(ws, ClientPart)
  }

  /** Sends a list of upstream events, in order. */
  function ToUpstreamAll(events: seq<Event>): (ws: seq<Wire>)
    ensures UpstreamOf(ws) == events
    ensures ClientOf(ws) == []
    decreases |events|
  {
    if |events| == 0 then []
    else
      var ws := [ToUpstream(events[0])] + ToUpstreamAll(events[1..]);
      assert ws[0] == ToUpstream(events[0]) && ws[1..] == ToUpstreamAll(events[1..]);
      assert events == [events[0]] + events[1..];
      ws
  }

  /** Connecting: when the upstream dial fails the handler returns and no session
      exists; otherwise the configuration is the first thing sent upstream, and what
      follows it starts out satisfying the trace invariants of `Run`. */
  function Open(dialed: bool): (r: Option<Outcome>)
    ensures r.Some? <==> dialed
    ensures r.Some? ==> |r.value.out| >= 1 && r.value.out[0] == ToUpstream(SessionUpdate(Config))
    ensures r.Some? ==> r.value.state.phase == Live && ClientOf(r.value.out) == []
    ensures r.Some? ==> Gate.NoSessionUpdate(UpstreamOf(r.value.out[1..]))
    ensures r.Some? ==> r.value.state.count == Gate.Pending(UpstreamOf(r.value.out[1..]))
    ensures r.Some? ==> Gate.Gated(UpstreamOf(r.value.out[1..]))
  {
    if dialed then
      var out := [ToUpstream(SessionUpdate(Config))];
      Seqs.FlattenSmall(out, ClientPart);
      Some(Outcome(State(0, Live), out))
    else None
  }

  /** Translates through the gate and sends the result upstream, keeping the phase. */
  function Translate(s: State, input: Gate.Input): Outcome
  {
    var g := Gate.Step(s.count, input);
    Outcome(State(g.count, s.phase), ToUpstreamAll(g.out))
  }

  /** One happening in a session in state `s`. */
  function Step(s: State, h: Happening, decode: string -> Option<seq<bv8>>): (r: Outcome)
    // once the handler has returned nothing happens any more
    ensures s.phase == Ended ==> r == Outcome(s, [])
    // a failed client read makes the handler return: the session ends, silently
    ensures h.ClientReadFailed? ==> r.state.phase == Ended && r.out == []
    // a failed upstream read cancels the context while the client loop keeps running
    ensures h.UpstreamReadFailed? && s.phase == Live ==> r.state == State(s.count, UpstreamLost) && r.out == []
    // only read failures change the phase
    ensures r.state.phase != s.phase ==>
      (h.ClientReadFailed? && r.state.phase == Ended) ||
      (h.UpstreamReadFailed? && s.phase == Live && r.state.phase == UpstreamLost)
    // no upstream message, however malformed, ends the session or touches the counter
    ensures h.UpstreamRead? ==> r.state == s
    // the gate's invariants carry over to the upstream side of the session
    ensures r.state.count == Gate.PendingAfter(s.count, UpstreamOf(r.out))
    ensures Gate.GatedFrom(s.count, UpstreamOf(r.out))
    ensures Gate.NoSessionUpdate(UpstreamOf(r.out))
    // upstream events come only from the client loop and the idle goroutine
    ensures UpstreamOf(r.out) != [] ==>
      (h.ClientRead? && s.phase != Ended) || (h.IdleFired? && s.phase == Live)
    ensures h.ClientRead? && s.phase != Ended ==>
      UpstreamOf(r.out) == Gate.Step(s.count, Gate.Received(h.frame)).out
    ensures h.IdleFired? && s.phase == Live ==>
      UpstreamOf(r.out) == Gate.Step(s.count, Gate.IdleFired).out
    // client messages come only from the upstream reader, while it runs
    ensures ClientOf(r.out) != [] ==> h.UpstreamRead? && s.phase == Live
    ensures h.UpstreamRead? && s.phase == Live ==>
      ClientOf(r.out) == Dispatch.Forward(h.message, decode).ToSeq()
  {
    if s.phase == Ended then Outcome(s, [])
    else
      match h
      case ClientRead(frame) => Translate(s, Gate.Received(frame))
      case ClientReadFailed => Outcome(State(s.count, Ended), [])
      case IdleFired =>
        if s.phase == Live then Translate(s, Gate.IdleFired) else Outcome(s, [])
      case UpstreamRead(message) =>
        if s.phase == Live then ForwardToClient(s, message, decode) else Outcome(s, [])
      case UpstreamReadFailed =>
        if s.phase == Live then Outcome(State(s.count, UpstreamLost), []) else Outcome(s, [])
  }

  /** Writes the dispatcher's message, if any, to the client. */
  function ForwardToClient(s: State, message: Dispatch.Inbound, decode: string -> Option<seq<bv8>>): (r: Outcome)
    ensures r.state == s
    ensures UpstreamOf(r.out) == []
    ensures ClientOf(r.out) == Dispatch.Forward(message, decode).ToSeq()
  {
    var out := Dispatch.Forward(message, decode);
    if out.Some? then
      var ws := [ToClient(out.value)];
      Seqs.FlattenSmall(ws, UpstreamPart);
      Seqs.FlattenSmall(ws, ClientPart);
      Outcome(s, ws)
    else
      Outcome(s, [])
  }

  /** A session that connected, run over a trace of happenings. */
  function Run(trace: seq<Happening>, decode: string -> Option<seq<bv8>>): (r: Outcome)
    // the configuration is sent first, and only once
    ensures |r.out| >= 1 && r.out[0] == ToUpstream(SessionUpdate(Config))
    ensures Gate.NoSessionUpdate(UpstreamOf(r.out[1..]))
    // after it, the upstream side obeys the commit gate
    ensures r.state.count == Gate.Pending(UpstreamOf(r.out[1..]))
    ensures Gate.Gated(UpstreamOf(r.out[1..]))
    decreases |trace|
  {
    if |trace| == 0 then Open(true).value
    else
      var prev := Run(trace[..|trace| - 1], decode);
      var step := Step(prev.state, trace[|trace| - 1], decode);
      var out := prev.out + step.out;
      RunStepFacts(prev.out, step.out, prev.state.count, step.state.count);
      Outcome(step.state, out)
  }

  /** The induction step of `Run`: one more happening keeps the session's trace invariants. */
  lemma RunStepFacts(prevOut: seq<Wire>, stepOut: seq<Wire>, before: nat, after: nat)
    requires |prevOut| >= 1
    requires Gate.NoSessionUpdate(UpstreamOf(prevOut[1..]))
    requires before == Gate.Pending(UpstreamOf(prevOut[1..]))
    requires Gate.Gated(UpstreamOf(prevOut[1..]))
    requires after == Gate.PendingAfter(before, UpstreamOf(stepOut))
    requires Gate.GatedFrom(before, UpstreamOf(stepOut))
    requires Gate.NoSessionUpdate(UpstreamOf(stepOut))
    ensures var tail := UpstreamOf((prevOut + stepOut)[1..]);
      after == Gate.Pending(tail) && Gate.Gated(tail) && Gate.NoSessionUpdate(tail)
  {
    var tail := prevOut[1..];
    assert (prevOut + stepOut)[1..] == tail + stepOut;
    Seqs.FlattenConcat(tail, stepOut, UpstreamPart);
    Gate.ExtendInvariants(UpstreamOf(tail), UpstreamOf(stepOut), before, after);
  }

  /** Once the client read has failed, the rest of the trace changes nothing. */
  lemma EndedIsFinal(trace: seq<Happening>, more: seq<Happening>, decode: string -> Option<seq<bv8>>)
    ensures Run(trace + [ClientReadFailed] + more, decode) == Run(trace + [ClientReadFailed], decode)
  {
    var failed := trace + [ClientReadFailed];
    assert failed[..|failed| - 1] == trace;
    assert Run(failed, decode).state.phase == Ended;
    EndedStaysEnded(failed, more, decode);
  }

  /** A session that has ended ignores everything after. */
  lemma {:induction false} EndedStaysEnded(trace: seq<Happening>, more: seq<Happening>,
                                           decode: string -> Option<seq<bv8>>)
    requires Run(trace, decode).state.phase == Ended
    ensures Run(trace + more, decode) == Run(trace, decode)
    decreases |more|
  {
    if |more| > 0 {
      var init := more[..|more| - 1];
      assert (trace + more)[..|trace + more| - 1] == trace + init;
      EndedStaysEnded(trace, init, decode);
    } else {
      assert trace + more == trace;
    }
  }

  // ---------------------------------------------------------------------------
  // What a session trace amounts to, stated without the step function

  /** No client read has failed: the handler is still running. */
  predicate ClientAlive(trace: seq<Happening>)
  {
    forall i :: 0 <= i < |trace| ==> !trace[i].ClientReadFailed?
  }

  /** No read has failed at all: the upstream reader and the idle goroutine still run. */
  predicate Listening(trace: seq<Happening>)
  {
    forall i :: 0 <= i < |trace| ==> !trace[i].ClientReadFailed? && !trace[i].UpstreamReadFailed?
  }

  /** The phase a trace leaves the session in, read off the failures it contains. */
  function PhaseOf(trace: seq<Happening>): Phase
  {
    if !ClientAlive(trace) then Ended
    else if !Listening(trace) then UpstreamLost
    else Live
  }

  /** What the translator is given for `h` after `earlier`: client frames while the
      handler runs, idle firings while the idle goroutine runs. */
  function GatePart(earlier: seq<Happening>, h: Happening): (part: seq<Gate.Input>)
    ensures |part| <= 1
  {
    match h
    case ClientRead(frame) => if ClientAlive(earlier) then [Gate.Received(frame)] else []
    case IdleFired => if Listening(earlier) then [Gate.IdleFired] else []
    case _ => []
  }

  /** The translator's inputs over a whole trace, in order. */
  function GateInputs(trace: seq<Happening>): seq<Gate.Input>
    decreases |trace|
  {
    if |trace| == 0 then []
    else
      var earlier := trace[..|trace| - 1];
      GateInputs(earlier) + GatePart(earlier, trace[|trace| - 1])
  }

  /** What the client is sent for `h` after `earlier`: the dispatcher's message for an
      upstream message read while the upstream reader runs. */
  function ForwardPart(earlier: seq<Happening>, h: Happening, decode: string -> Option<seq<bv8>>)
    : seq<Dispatch.ClientMessage>
  {
    if h.UpstreamRead? && Listening(earlier) then Dispatch.Forward(h.message, decode).ToSeq() else []
  }

  /** Everything the client is sent over a whole trace, in order. */
  function Forwarded(trace: seq<Happening>, decode: string -> Option<seq<bv8>>): seq<Dispatch.ClientMessage>
    decreases |trace|
  {
    if |trace| == 0 then []
    else
      var earlier := trace[..|trace| - 1];
      Forwarded(earlier, decode) + ForwardPart(earlier, trace[|trace| - 1], decode)
  }

  /** A session is the translator run over its client frames and idle firings behind
      the configuration event, and the dispatcher run over its upstream messages; its
      phase is fixed by the read failures it has seen. */
  lemma {:induction false} RunIsTranslatorAndDispatcher(trace: seq<Happening>,
                                                        decode: string -> Option<seq<bv8>>)
    ensures Run(trace, decode).state == State(Gate.Run(GateInputs(trace)).count, PhaseOf(trace))
    ensures UpstreamOf(Run(trace, decode).out) == [SessionUpdate(Config)] + Gate.Run(GateInputs(trace)).out
    ensures ClientOf(Run(trace, decode).out) == Forwarded(trace, decode)
    decreases |trace|
  {
    if |trace| == 0 {
      RunStartsAtOpen(decode);
    } else {
      var earlier := trace[..|trace| - 1];
      RunIsTranslatorAndDispatcher(earlier, decode);
      RunSnocFollowsReference(trace, decode);
    }
  }

  /** The base case of `RunIsTranslatorAndDispatcher`: only the configuration is sent. */
  lemma RunStartsAtOpen(decode: string -> Option<seq<bv8>>)
    ensures Run([], decode).state == State(Gate.Run(GateInputs([])).count, PhaseOf([]))
    ensures UpstreamOf(Run([], decode).out) == [SessionUpdate(Config)] + Gate.Run(GateInputs([])).out
    ensures ClientOf(Run([], decode).out) == Forwarded([], decode)
  {
    Seqs.FlattenSmall(Run([], decode).out, UpstreamPart);
  }

  /** The induction step of `RunIsTranslatorAndDispatcher`. */
  lemma RunSnocFollowsReference(trace: seq<Happening>, decode: string -> Option<seq<bv8>>)
    requires |trace| > 0
    requires var earlier := trace[..|trace| - 1];
      && Run(earlier, decode).state == State(Gate.Run(GateInputs(earlier)).count, PhaseOf(earlier))
      && UpstreamOf(Run(earlier, decode).out) == [SessionUpdate(Config)] + Gate.Run(GateInputs(earlier)).out
      && ClientOf(Run(earlier, decode).out) == Forwarded(earlier, decode)
    ensures Run(trace, decode).state == State(Gate.Run(GateInputs(trace)).count, PhaseOf(trace))
    ensures UpstreamOf(Run(trace, decode).out) == [SessionUpdate(Config)] + Gate.Run(GateInputs(trace)).out
    ensures ClientOf(Run(trace, decode).out) == Forwarded(trace, decode)
  {
    var earlier := trace[..|trace| - 1];
    var prev := Run(earlier, decode);
    var step := Step(prev.state, trace[|trace| - 1], decode);
    RunUnfold(trace, decode);
    StepFollowsReference(trace, decode, prev.state, step);
    AppendAfterConfig(prev.out, step.out, Gate.Run(GateInputs(earlier)).out);
  }

  /** A session run is the run of all but its last happening, followed by one step. */
  lemma RunUnfold(trace: seq<Happening>, decode: string -> Option<seq<bv8>>)
    requires |trace| > 0
    ensures var prev := Run(trace[..|trace| - 1], decode);
      var step := Step(prev.state, trace[|trace| - 1], decode);
      Run(trace, decode) == Outcome(step.state, prev.out + step.out)
  {
  }

  /** How one more happening moves the phase a trace determines. */
  lemma PhaseSnoc(trace: seq<Happening>)
    requires |trace| > 0
    ensures var earlier := trace[..|trace| - 1];
      var h := trace[|trace| - 1];
      && (ClientAlive(trace) <==> ClientAlive(earlier) && !h.ClientReadFailed?)
      && (Listening(trace) <==> Listening(earlier) && !h.ClientReadFailed? && !h.UpstreamReadFailed?)
  {
    var earlier := trace[..|trace| - 1];
    assert forall i :: 0 <= i < |earlier| ==> trace[i] == earlier[i];
  }

  /** The phase names which of the two loops still run. */
  lemma PhaseNamesLoops(trace: seq<Happening>)
    ensures ClientAlive(trace) <==> PhaseOf(trace) != Ended
    ensures Listening(trace) <==> PhaseOf(trace) == Live
  {
    if Listening(trace) {
      assert forall i :: 0 <= i < |trace| ==> !trace[i].ClientReadFailed?;
    }
  }

  /** One more happening, handled in the state the earlier ones determine, moves the
      translator, the dispatcher and the phase as the reference definitions say. */
  lemma StepFollowsReference(trace: seq<Happening>, decode: string -> Option<seq<bv8>>,
                             s: State, step: Outcome)
    requires |trace| > 0
    requires s == State(Gate.Run(GateInputs(trace[..|trace| - 1])).count, PhaseOf(trace[..|trace| - 1]))
    requires step == Step(s, trace[|trace| - 1], decode)
    ensures var g := Gate.Run(GateInputs(trace));
      && step.state == State(g.count, PhaseOf(trace))
      && g.out == Gate.Run(GateInputs(trace[..|trace| - 1])).out + UpstreamOf(step.out)
      && Forwarded(trace, decode) == Forwarded(trace[..|trace| - 1], decode) + ClientOf(step.out)
  {
    PhaseNamesLoops(trace[..|trace| - 1]);
    StepPhaseFollows(trace, decode, s, step);
    StepGateFollows(trace, decode, s, step);
    StepClientFollows(trace, decode, s, step);
  }

  /** The step's phase is the one the read failures in the longer trace determine. */
  lemma StepPhaseFollows(trace: seq<Happening>, decode: string -> Option<seq<bv8>>,
                         s: State, step: Outcome)
    requires |trace| > 0
    requires s.phase == PhaseOf(trace[..|trace| - 1])
    requires step == Step(s, trace[|trace| - 1], decode)
    ensures step.state.phase == PhaseOf(trace)
  {
    PhaseSnoc(trace);
    PhaseNamesLoops(trace[..|trace| - 1]);
    PhaseNamesLoops(trace);
  }

  /** The step's upstream events and counter are one more translator step, exactly
      when the reference gives the translator one more input. */
  lemma StepGateFollows(trace: seq<Happening>, decode: string -> Option<seq<bv8>>,
                        s: State, step: Outcome)
    requires |trace| > 0
    requires ClientAlive(trace[..|trace| - 1]) <==> s.phase != Ended
    requires Listening(trace[..|trace| - 1]) <==> s.phase == Live
    requires s.count == Gate.Run(GateInputs(trace[..|trace| - 1])).count
    requires step == Step(s, trace[|trace| - 1], decode)
    ensures var g := Gate.Run(GateInputs(trace));
      && step.state.count == g.count
      && g.out == Gate.Run(GateInputs(trace[..|trace| - 1])).out + UpstreamOf(step.out)
  {
    StepMatchesGatePart(trace[..|trace| - 1], trace[|trace| - 1], decode, s);
    GateInputsSnoc(trace, s.count, step.state.count, UpstreamOf(step.out));
  }

  /** Handling `h` moves the translator exactly by what the reference gives it for `h`. */
  lemma StepMatchesGatePart(earlier: seq<Happening>, h: Happening, decode: string -> Option<seq<bv8>>,
                            s: State)
    requires ClientAlive(earlier) <==> s.phase != Ended
    requires Listening(earlier) <==> s.phase == Live
    ensures var r := Step(s, h, decode);
      var part := GatePart(earlier, h);
      && (part == [] ==> UpstreamOf(r.out) == [] && r.state.count == s.count)
      && (part != [] ==> UpstreamOf(r.out) == Gate.Step(s.count, part[0]).out &&
                         r.state.count == Gate.Step(s.count, part[0]).count)
  {
  }

  /** The translator over the longer trace's inputs is one step further on, or the
      same when the last happening gives it nothing. */
  lemma GateInputsSnoc(trace: seq<Happening>, count: nat, after: nat, events: seq<Event>)
    requires |trace| > 0
    requires count == Gate.Run(GateInputs(trace[..|trace| - 1])).count
    requires var part := GatePart(trace[..|trace| - 1], trace[|trace| - 1]);
      && (part == [] ==> events == [] && after == count)
      && (part != [] ==> events == Gate.Step(count, part[0]).out && after == Gate.Step(count, part[0]).count)
    ensures var g := Gate.Run(GateInputs(trace));
      && after == g.count
      && g.out == Gate.Run(GateInputs(trace[..|trace| - 1])).out + events
  {
    var earlier := trace[..|trace| - 1];
    GateRunExtend(GateInputs(earlier), GatePart(earlier, trace[|trace| - 1]), count, after, events);
  }

  /** The translator run over at most one more input. */
  lemma GateRunExtend(inputs: seq<Gate.Input>, part: seq<Gate.Input>, count: nat, after: nat, events: seq<Event>)
    requires |part| <= 1
    requires count == Gate.Run(inputs).count
    requires part == [] ==> events == [] && after == count
    requires part != [] ==> events == Gate.Step(count, part[0]).out && after == Gate.Step(count, part[0]).count
    ensures after == Gate.Run(inputs + part).count
    ensures Gate.Run(inputs + part).out == Gate.Run(inputs).out + events
  {
    if part == [] {
      assert inputs + part == inputs;
    } else {
      assert part == [part[0]];
      Gate.RunSnoc(inputs, part[0]);
    }
  }

  /** The step's client messages are what the reference forwards for the happening. */
  lemma StepClientFollows(trace: seq<Happening>, decode: string -> Option<seq<bv8>>,
                          s: State, step: Outcome)
    requires |trace| > 0
    requires Listening(trace[..|trace| - 1]) <==> s.phase == Live
    requires step == Step(s, trace[|trace| - 1], decode)
    ensures Forwarded(trace, decode) == Forwarded(trace[..|trace| - 1], decode) + ClientOf(step.out)
  {
  }

  /** Upstream events appended after a run stay behind its configuration event. */
  lemma AppendAfterConfig(a: seq<Wire>, b: seq<Wire>, events: seq<Event>)
    requires UpstreamOf(a) == [SessionUpdate(Config)] + events
    ensures UpstreamOf(a + b) == [SessionUpdate(Config)] + (events + UpstreamOf(b))
    ensures ClientOf(a + b) == ClientOf(a) + ClientOf(b)
  {
    ProjectionsConcat(a, b);
    assert ([SessionUpdate(Config)] + events) + UpstreamOf(b)
        == [SessionUpdate(Config)] + (events + UpstreamOf(b));
  }

  /** Both projections distribute over concatenation. */
  lemma ProjectionsConcat(a: seq<Wire>, b: seq<Wire>)
    ensures UpstreamOf(a + b) == UpstreamOf(a) + UpstreamOf(b)
    ensures ClientOf(a + b) == ClientOf(a) + ClientOf(b)
  {
    Seqs.FlattenConcat(a, b, UpstreamPart);
    Seqs.FlattenConcat(a, b, ClientPart);
  }

  /** Without a read failure the session stays live, whatever the upstream sends. */
  lemma {:induction false} OnlyReadFailuresEndLiveness(trace: seq<Happening>,
                                                       decode: string -> Option<seq<bv8>>)
    requires forall i :: 0 <= i < |trace| ==> !trace[i].ClientReadFailed? && !trace[i].UpstreamReadFailed?
    ensures Run(trace, decode).state.phase == Live
    decreases |trace|
  {
    if |trace| > 0 {
      OnlyReadFailuresEndLiveness(trace[..|trace| - 1], decode);
    }
  }
}
