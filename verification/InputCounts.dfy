/** The count argument: why matching totals mean that every counted call was recorded.

    A full-mode agent announces each call before making it. A call to a rewritten site then goes
    through the tape, which announces one input, or fails or gives up without announcing any. While
    the tape obtains the value, code of the workspace may run, such as a subclass of Random, and make
    calls of its own, rewritten ones among them; so each thread has a stack of open calls. */
module InputCounts {
  import opened Boundaries
  import opened Counting
  import opened Capabilities
  import opened Options

  /** A rewritten call between its announcement and the end of its bridge method. */
  datatype InBridge = InBridge(call: nat, file: bool)

  /** `bridges` holds each thread's open bridge methods, innermost last; `answers` says for each INPUT
      event of the stream which CALL event it belongs to; `abandoned` are the CALL events whose bridge
      methods ended without an input. */
  datatype Agent = Agent(
    stream: seq<RawEvent>,
    bridges: map<nat, seq<InBridge>>,
    answers: map<nat, nat>,
    abandoned: set<nat>)

  function Stack(a: Agent, t: nat): seq<InBridge> {
    if t in a.bridges then a.bridges[t] else []
  }

  function Top(a: Agent, t: nat): InBridge
    requires Stack(a, t) != []
  {
    Stack(a, t)[|Stack(a, t)| - 1]
  }

  function Popped(a: Agent, t: nat): map<nat, seq<InBridge>>
    requires Stack(a, t) != []
  {
    a.bridges[t := Stack(a, t)[..|Stack(a, t)| - 1]]
  }

  datatype Step =
    | Call(t: nat, key: string, site: Site)
    | Observe(t: nat, key: string, kind: string)
    | GiveUp(t: nat, key: string, oversized: bool)   // an exception, an ended test, or a file over the limit
    | Other(e: RawEvent)

  predicate Enabled(a: Agent, s: Step) {
    match s
    case Call(_, _, _) => true
    case Observe(t, _, kind) => Stack(a, t) != [] && (StartsWith(kind, "io.file.") <==> Top(a, t).file)
    case GiveUp(t, _, _) => Stack(a, t) != []
    case Other(e) => !IsCall(e) && !IsInput(e)
  }

  function Announcement(s: Step): seq<RawEvent> {
    match s
    case Call(t, key, site) => [RawEvent("CALL", t, key, site.owner, site.name, "", "", false)]
    case Observe(t, key, kind) => [RawEvent("INPUT", t, key, "", "", kind, "", false)]
    case GiveUp(t, key, oversized) => if oversized then [RawEvent("CAPABILITY", t, key, "", "", "", "io", true)] else []
    case Other(e) => [e]
  }

  function Apply(a: Agent, s: Step, captureFileIo: bool): Agent
    requires Enabled(a, s)
  {
    var stream := a.stream + Announcement(s);
    match s
    case Call(t, _, site) =>
      var rewriting := Rewrite(site, captureFileIo);
      if rewriting.Untouched? then a.(stream := stream)
      else
        a.(stream := stream,
           bridges := Pushed(a, t, InBridge(|a.stream|, rewriting.FileTape?)))
    case Observe(t, _, _) =>
      a.(stream := stream, bridges := Popped(a, t), answers := a.answers[|a.stream| := Top(a, t).call])
    case GiveUp(t, _, _) =>
      a.(stream := stream, bridges := Popped(a, t), abandoned := a.abandoned + {Top(a, t).call})
    case Other(_) => a.(stream := stream)
  }

  function Run(steps: seq<Step>, captureFileIo: bool): Option<Agent> {
    if steps == [] then Some(Agent([], map[], map[], {}))
    else
      var before := Run(steps[..|steps| - 1], captureFileIo);
      var s := steps[|steps| - 1];
      if before.Some? && Enabled(before.value, s) then Some(Apply(before.value, s, captureFileIo)) else None
  }

  /** A call and the kind of input that can answer it. */
  predicate Suits(call: RawEvent, file: bool) {
    if file then FileCall(call) else NondeterministicCall(call)
  }

  /** An INPUT event answers an earlier counted call of its own thread, and one of its own kind. */
  predicate AnswersCall(stream: seq<RawEvent>, input: nat, call: nat) {
    && call < input < |stream|
    && stream[call].threadId == stream[input].threadId
    && Suits(stream[call], FileInput(stream[input]))
  }

  /** Different inputs answer different calls. */
  ghost predicate AnswersInv(stream: seq<RawEvent>, answers: map<nat, nat>) {
    && answers.Keys == Where(stream, IsInput)
    && (forall i :: i in answers ==> AnswersCall(stream, i, answers[i]))
    && Injective(answers)
  }

  /** An open bridge method has a suitable call of its own thread that is not answered yet. */
  predicate OpenCall(stream: seq<RawEvent>, t: nat, bridge: InBridge) {
    bridge.call < |stream| && stream[bridge.call].threadId == t && Suits(stream[bridge.call], bridge.file)
  }

  ghost predicate BridgesInv(stream: seq<RawEvent>, bridges: map<nat, seq<InBridge>>, answers: map<nat, nat>) {
    && (forall t, k :: t in bridges && 0 <= k < |bridges[t]| ==> OpenCall(stream, t, bridges[t][k]))
    && (forall t, k, i :: t in bridges && 0 <= k < |bridges[t]| && i in answers ==> answers[i] != bridges[t][k].call)
    && (forall t, k, l :: t in bridges && 0 <= k < l < |bridges[t]| ==> bridges[t][k].call < bridges[t][l].call)
  }

  ghost predicate AgentInv(a: Agent) {
    AnswersInv(a.stream, a.answers) && BridgesInv(a.stream, a.bridges, a.answers)
  }

  lemma WhereExtends(stream: seq<RawEvent>, more: seq<RawEvent>)
    requires forall i :: 0 <= i < |more| ==> !IsInput(more[i])
    ensures Where(stream + more, IsInput) == Where(stream, IsInput)
  {
    forall i: nat | i < |stream + more|
      ensures i in Where(stream + more, IsInput) <==> i in Where(stream, IsInput)
    {
      assert (stream + more)[i] == if i < |stream| then stream[i] else more[i - |stream|];
    }
  }

  lemma {:induction false} OpenCallsSurvive(stream: seq<RawEvent>, more: seq<RawEvent>, bridges: map<nat, seq<InBridge>>)
    requires forall t, k :: t in bridges && 0 <= k < |bridges[t]| ==> OpenCall(stream, t, bridges[t][k])
    ensures forall t, k :: t in bridges && 0 <= k < |bridges[t]| ==> OpenCall(stream + more, t, bridges[t][k])
  {
    forall t, k | t in bridges && 0 <= k < |bridges[t]|
      ensures OpenCall(stream + more, t, bridges[t][k])
    {
      assert OpenCall(stream, t, bridges[t][k]);
      assert (stream + more)[bridges[t][k].call] == stream[bridges[t][k].call];
    }
  }

  /** Events that are not inputs change nothing. */
  lemma {:induction false} StreamGrows(a: Agent, more: seq<RawEvent>)
    requires AgentInv(a) && forall i :: 0 <= i < |more| ==> !IsInput(more[i])
    ensures AgentInv(a.(stream := a.stream + more))
  {
    WhereExtends(a.stream, more);
    AnswersSurvive(a.stream, more, a.answers);
    OpenCallsSurvive(a.stream, more, a.bridges);
  }

  /** A bridge method that ends without an input. */
  lemma {:induction false} PopKeepsInv(a: Agent, t: nat)
    requires AgentInv(a) && Stack(a, t) != []
    ensures AgentInv(a.(bridges := Popped(a, t)))
  {
    var b := a.(bridges := Popped(a, t));
    forall u, k | u in b.bridges && 0 <= k < |b.bridges[u]|
      ensures OpenCall(b.stream, u, b.bridges[u][k])
    {
      assert OpenCall(a.stream, u, a.bridges[u][k]);
    }
  }

  function Pushed(a: Agent, t: nat, bridge: InBridge): map<nat, seq<InBridge>> {
    a.bridges[t := Stack(a, t) + [bridge]]
  }

  /** What is on a stack after a push was there before, or is the new call on top. */
  lemma {:induction false} PushedAt(a: Agent, t: nat, bridge: InBridge, u: nat, k: nat)
    requires u in Pushed(a, t, bridge) && k < |Pushed(a, t, bridge)[u]|
    ensures
      || (u in a.bridges && k < |a.bridges[u]| && Pushed(a, t, bridge)[u][k] == a.bridges[u][k])
      || (u == t && k == |Stack(a, t)| && Pushed(a, t, bridge)[u][k] == bridge)
  {
  }

  lemma {:induction false} PushedOpen(a: Agent, t: nat, bridge: InBridge)
    requires BridgesInv(a.stream, a.bridges, a.answers) && OpenCall(a.stream, t, bridge)
    ensures forall u, k :: u in Pushed(a, t, bridge) && 0 <= k < |Pushed(a, t, bridge)[u]| ==>
              OpenCall(a.stream, u, Pushed(a, t, bridge)[u][k])
  {
    forall u, k: nat | u in Pushed(a, t, bridge) && k < |Pushed(a, t, bridge)[u]|
      ensures OpenCall(a.stream, u, Pushed(a, t, bridge)[u][k])
    {
      PushedAt(a, t, bridge, u, k);
    }
  }

  lemma {:induction false} PushedUnanswered(a: Agent, t: nat, bridge: InBridge)
    requires BridgesInv(a.stream, a.bridges, a.answers) && forall i :: i in a.answers ==> a.answers[i] < bridge.call
    ensures forall u, k, i :: u in Pushed(a, t, bridge) && 0 <= k < |Pushed(a, t, bridge)[u]| && i in a.answers ==>
              a.answers[i] != Pushed(a, t, bridge)[u][k].call
  {
    forall u, k: nat, i | u in Pushed(a, t, bridge) && k < |Pushed(a, t, bridge)[u]| && i in a.answers
      ensures a.answers[i] != Pushed(a, t, bridge)[u][k].call
    {
      PushedAt(a, t, bridge, u, k);
    }
  }

  lemma {:induction false} PushedInOrder(a: Agent, t: nat, bridge: InBridge)
    requires BridgesInv(a.stream, a.bridges, a.answers)
    requires forall u, k :: u in a.bridges && 0 <= k < |a.bridges[u]| ==> a.bridges[u][k].call < bridge.call
    ensures forall u, k, l :: u in Pushed(a, t, bridge) && 0 <= k < l < |Pushed(a, t, bridge)[u]| ==>
              Pushed(a, t, bridge)[u][k].call < Pushed(a, t, bridge)[u][l].call
  {
    forall u, k: nat, l: nat | u in Pushed(a, t, bridge) && k < l < |Pushed(a, t, bridge)[u]|
      ensures Pushed(a, t, bridge)[u][k].call < Pushed(a, t, bridge)[u][l].call
    {
      PushedAt(a, t, bridge, u, k);
      PushedAt(a, t, bridge, u, l);
    }
  }

  /** A rewritten call joins its thread's stack. */
  lemma {:induction false} PushKeepsInv(a: Agent, t: nat, bridge: InBridge)
    requires AgentInv(a) && OpenCall(a.stream, t, bridge)
    requires forall u, k :: u in a.bridges && 0 <= k < |a.bridges[u]| ==> a.bridges[u][k].call < bridge.call
    requires forall i :: i in a.answers ==> a.answers[i] < bridge.call
    ensures AgentInv(a.(bridges := Pushed(a, t, bridge)))
  {
    PushedOpen(a, t, bridge);
    PushedUnanswered(a, t, bridge);
    PushedInOrder(a, t, bridge);
  }

  lemma {:induction false} CallKeepsInv(a: Agent, s: Step, captureFileIo: bool)
    requires AgentInv(a) && Enabled(a, s) && s.Call?
    ensures AgentInv(Apply(a, s, captureFileIo))
  {
    CallsAreNotInputs(s);
    var grown, n := a.(stream := a.stream + Announcement(s)), |a.stream|;
    StreamGrows(a, Announcement(s));
    var rewriting := Rewrite(s.site, captureFileIo);
    if !rewriting.Untouched? {
      NewCallIsOpen(a.stream, s, captureFileIo);
      forall u, k | u in a.bridges && 0 <= k < |a.bridges[u]|
        ensures a.bridges[u][k].call < n
      {
        assert OpenCall(a.stream, u, a.bridges[u][k]);
      }
      forall i | i in a.answers
        ensures a.answers[i] < n
      {
        assert AnswersCall(a.stream, i, a.answers[i]);
      }
      PushKeepsInv(grown, s.t, InBridge(n, rewriting.FileTape?));
    }
  }

  lemma {:induction false} NewCallIsOpen(stream: seq<RawEvent>, s: Step, captureFileIo: bool)
    requires s.Call? && !Rewrite(s.site, captureFileIo).Untouched?
    ensures OpenCall(stream + Announcement(s), s.t, InBridge(|stream|, Rewrite(s.site, captureFileIo).FileTape?))
  {
    RewrittenIsCounted(s.site, captureFileIo);
    assert (stream + Announcement(s))[|stream|] == Announcement(s)[0];
  }

  lemma CallsAreNotInputs(s: Step)
    requires !s.Observe? && (s.Other? ==> !IsInput(s.e))
    ensures forall i :: 0 <= i < |Announcement(s)| ==> !IsInput(Announcement(s)[i])
  {
    DistinctTypes();
  }

  /** The new input answers its thread's innermost open call. */
  lemma {:induction false} ObservedAnswers(a: Agent, s: Step)
    requires AgentInv(a) && Enabled(a, s) && s.Observe?
    ensures IsInput(Announcement(s)[0])
    ensures AnswersCall(a.stream + Announcement(s), |a.stream|, Top(a, s.t).call)
  {
    var bridge, more := Top(a, s.t), a.stream + Announcement(s);
    assert OpenCall(a.stream, s.t, a.bridges[s.t][|a.bridges[s.t]| - 1]);
    assert more[bridge.call] == a.stream[bridge.call] && more[|a.stream|] == Announcement(s)[0];
    assert FileInput(Announcement(s)[0]) <==> bridge.file;
  }

  lemma {:induction false} AnswersSurvive(stream: seq<RawEvent>, more: seq<RawEvent>, answers: map<nat, nat>)
    requires forall i :: i in answers ==> AnswersCall(stream, i, answers[i])
    ensures forall i :: i in answers ==> AnswersCall(stream + more, i, answers[i])
  {
    forall i | i in answers
      ensures AnswersCall(stream + more, i, answers[i])
    {
      assert AnswersCall(stream, i, answers[i]);
      assert (stream + more)[i] == stream[i] && (stream + more)[answers[i]] == stream[answers[i]];
    }
  }

  lemma {:induction false} InjectiveExtends(answers: map<nat, nat>, input: nat, call: nat)
    requires Injective(answers) && input !in answers && forall i :: i in answers ==> answers[i] != call
    ensures Injective(answers[input := call])
  {
  }

  lemma WhereSnoc(stream: seq<RawEvent>, e: RawEvent)
    requires IsInput(e)
    ensures Where(stream + [e], IsInput) == Where(stream, IsInput) + {|stream|}
  {
    var more, n := stream + [e], |stream|;
    assert more[..n] == stream && more[n] == e && more[..n + 1] == more;
    WhereGrows(more, n, IsInput);
  }

  lemma {:induction false} ObserveKeepsAnswers(a: Agent, s: Step)
    requires AgentInv(a) && Enabled(a, s) && s.Observe?
    ensures AnswersInv(a.stream + Announcement(s), a.answers[|a.stream| := Top(a, s.t).call])
  {
    var n, call := |a.stream|, Top(a, s.t).call;
    var e := Announcement(s)[0];
    assert Announcement(s) == [e];
    ObservedAnswers(a, s);
    AnswersSurvive(a.stream, [e], a.answers);
    WhereSnoc(a.stream, e);
    assert n !in a.answers;
    assert forall i :: i in a.answers ==> a.answers[i] != a.bridges[s.t][|a.bridges[s.t]| - 1].call;
    InjectiveExtends(a.answers, n, call);
    assert a.answers[n := call].Keys == a.answers.Keys + {n};
  }

  /** Open calls of other threads are other events, and those deeper in the stack are earlier ones. */
  lemma {:induction false} TopIsNoOther(a: Agent, t: nat, u: nat, k: nat)
    requires AgentInv(a) && Stack(a, t) != [] && u in a.bridges && k < |Popped(a, t)[u]|
    ensures Popped(a, t)[u][k].call != Top(a, t).call
  {
    assert OpenCall(a.stream, t, a.bridges[t][|a.bridges[t]| - 1]);
    assert OpenCall(a.stream, u, a.bridges[u][k]);
  }

  lemma {:induction false} ObserveKeepsBridges(a: Agent, s: Step)
    requires AgentInv(a) && Enabled(a, s) && s.Observe?
    ensures BridgesInv(a.stream + Announcement(s), Popped(a, s.t), a.answers[|a.stream| := Top(a, s.t).call])
  {
    var stream, bridges := a.stream + Announcement(s), Popped(a, s.t);
    PopKeepsInv(a, s.t);
    OpenCallsSurvive(a.stream, Announcement(s), bridges);
    forall u, k: nat | u in bridges && k < |bridges[u]|
      ensures bridges[u][k].call != Top(a, s.t).call
    {
      TopIsNoOther(a, s.t, u, k);
    }
  }

  lemma {:induction false} ObserveKeepsInv(a: Agent, s: Step, captureFileIo: bool)
    requires AgentInv(a) && Enabled(a, s) && s.Observe?
    ensures AgentInv(Apply(a, s, captureFileIo))
  {
    ObserveKeepsAnswers(a, s);
    ObserveKeepsBridges(a, s);
  }

  lemma {:induction false} StepKeepsInv(a: Agent, s: Step, captureFileIo: bool)
    requires AgentInv(a) && Enabled(a, s)
    ensures AgentInv(Apply(a, s, captureFileIo))
  {
    match s {
      case Call(_, _, _) => CallKeepsInv(a, s, captureFileIo);
      case Observe(_, _, _) => ObserveKeepsInv(a, s, captureFileIo);
      case GiveUp(_, _, _) =>
        CallsAreNotInputs(s);
        StreamGrows(a, Announcement(s));
        PopKeepsInv(a.(stream := a.stream + Announcement(s)), s.t);
      case Other(_) =>
        StreamGrows(a, Announcement(s));
    }
  }

  lemma {:induction false} RunKeepsInv(steps: seq<Step>, captureFileIo: bool)
    requires Run(steps, captureFileIo).Some?
    ensures AgentInv(Run(steps, captureFileIo).value)
  {
    if steps != [] {
      RunKeepsInv(steps[..|steps| - 1], captureFileIo);
      StepKeepsInv(Run(steps[..|steps| - 1], captureFileIo).value, steps[|steps| - 1], captureFileIo);
    }
  }

  /** Some input of the call's own kind and thread, announced after it, belongs to it. */
  ghost predicate Recorded(a: Agent, call: nat) {
    exists i :: i in a.answers && a.answers[i] == call && AnswersCall(a.stream, i, call)
  }

  /** The inputs in `from` answer different calls, so there are at most as many of them as calls, and
      as many exactly when every call is answered. */
  lemma {:induction false} Pigeonhole(answers: map<nat, nat>, from: set<nat>, calls: set<nat>)
    requires Injective(answers) && from <= answers.Keys && forall i :: i in from ==> answers[i] in calls
    ensures |from| <= |calls|
    ensures |from| == |calls| <==> forall c :: c in calls ==> exists i :: i in from && answers[i] == c
  {
    var image := set i | i in from :: answers[i];
    ImageSize(answers, from);
    SubsetSize(image, calls);
  }

  lemma {:induction false} ImageSize(answers: map<nat, nat>, from: set<nat>)
    requires Injective(answers) && from <= answers.Keys
    ensures |set i | i in from :: answers[i]| == |from|
  {
    if from != {} {
      var x :| x in from;
      ImageSize(answers, from - {x});
      var rest := set i | i in from - {x} :: answers[i];
      assert (set i | i in from :: answers[i]) == rest + {answers[x]};
    }
  }

  lemma KindsOfCallsDiffer(call: RawEvent)
    ensures !(FileCall(call) && NondeterministicCall(call))
  {
    FilesAreNotNondeterministic(call.targetMethod);
  }

  /** The count argument, for every full-mode stream: recorded inputs never outnumber counted calls,
      and the totals match exactly when every counted call was recorded. */
  lemma {:induction false} MatchingTotals(steps: seq<Step>, captureFileIo: bool)
    requires Run(steps, captureFileIo).Some?
    ensures
      var a := Run(steps, captureFileIo).value;
      var inputs, calls := Where(a.stream, PlainInput), Where(a.stream, NondeterministicCall);
      |inputs| <= |calls| && (|inputs| == |calls| <==> forall c :: c in calls ==> Recorded(a, c))
    ensures
      var a := Run(steps, captureFileIo).value;
      var inputs, calls := Where(a.stream, FileInput), Where(a.stream, FileCall);
      |inputs| <= |calls| && (|inputs| == |calls| <==> forall c :: c in calls ==> Recorded(a, c))
  {
    var a := Run(steps, captureFileIo).value;
    RunKeepsInv(steps, captureFileIo);
    PlainTotals(a);
    FileTotals(a);
  }

  lemma {:induction false} PlainTotals(a: Agent)
    requires AgentInv(a)
    ensures
      var inputs, calls := Where(a.stream, PlainInput), Where(a.stream, NondeterministicCall);
      |inputs| <= |calls| && (|inputs| == |calls| <==> forall c :: c in calls ==> Recorded(a, c))
  {
    var inputs, calls := Where(a.stream, PlainInput), Where(a.stream, NondeterministicCall);
    assert forall i :: i in inputs ==> i in a.answers && AnswersCall(a.stream, i, a.answers[i]);
    Pigeonhole(a.answers, inputs, calls);
    forall c | c in calls
      ensures Recorded(a, c) <==> exists i :: i in inputs && a.answers[i] == c
    {
      KindsOfCallsDiffer(a.stream[c]);
      if Recorded(a, c) {
        var i :| i in a.answers && a.answers[i] == c && AnswersCall(a.stream, i, c);
        assert i in inputs;
      }
    }
  }

  lemma {:induction false} FileTotals(a: Agent)
    requires AgentInv(a)
    ensures
      var inputs, calls := Where(a.stream, FileInput), Where(a.stream, FileCall);
      |inputs| <= |calls| && (|inputs| == |calls| <==> forall c :: c in calls ==> Recorded(a, c))
  {
    var inputs, calls := Where(a.stream, FileInput), Where(a.stream, FileCall);
    assert forall i :: i in inputs ==> i in a.answers && AnswersCall(a.stream, i, a.answers[i]);
    Pigeonhole(a.answers, inputs, calls);
    forall c | c in calls
      ensures Recorded(a, c) <==> exists i :: i in inputs && a.answers[i] == c
    {
      KindsOfCallsDiffer(a.stream[c]);
      if Recorded(a, c) {
        var i :| i in a.answers && a.answers[i] == c && AnswersCall(a.stream, i, c);
        assert i in inputs;
      }
    }
  }

  lemma {:induction false} InputsMustMatch(stream: seq<RawEvent>, n: nat)
    requires n < |stream| && NondeterministicCall(stream[n]) && !Missing(stream, "nondeterminism")
    ensures InputsMatch(stream)
  {
    DistinctCapabilities();
    assert "nondeterminism" in Crossed(stream[n].targetOwner, stream[n].targetMethod);
    assert DeniedBy(stream, "nondeterminism");
  }

  lemma {:induction false} FilesMustMatch(stream: seq<RawEvent>, n: nat)
    requires n < |stream| && IsCall(stream[n]) && Io(stream[n].targetOwner) && !Missing(stream, "io")
    ensures FilesMatch(stream)
  {
    DistinctCapabilities();
    assert "io" in Crossed(stream[n].targetOwner, stream[n].targetMethod);
    assert DeniedBy(stream, "io");
  }

  lemma FilesAreIo()
    ensures Io("java/nio/file/Files")
  {
    assert StartsWith("java/nio/file/Files", "java/nio/file/");
  }

  /** A full-mode recording that lacks no capability has an input of its own for every counted call,
      and makes no other external call. */
  lemma {:induction false} CompleteMeansRecorded(steps: seq<Step>, captureFileIo: bool, n: nat)
    requires Run(steps, captureFileIo).Some? && n < |Run(steps, captureFileIo).value.stream|
    requires forall c :: !Missing(Run(steps, captureFileIo).value.stream, c)
    ensures
      var a := Run(steps, captureFileIo).value;
      && (NondeterministicCall(a.stream[n]) || FileCall(a.stream[n]) ==> Recorded(a, n))
      && !UnsupportedIoCall(a.stream[n])
  {
    var a := Run(steps, captureFileIo).value;
    var e := a.stream[n];
    MatchingTotals(steps, captureFileIo);
    FilesAreIo();
    if NondeterministicCall(e) {
      InputsMustMatch(a.stream, n);
      assert n in Where(a.stream, NondeterministicCall);
    }
    if IsCall(e) && Io(e.targetOwner) {
      FilesMustMatch(a.stream, n);
      assert FileCall(e) ==> n in Where(a.stream, FileCall);
      assert UnsupportedIoCall(e) ==> n in Where(a.stream, UnsupportedIoCall);
    }
  }

  // ---------------------------------------------------------------- abandoned calls

  /** An abandoned call is a counted one that no input answers or ever will. */
  ghost predicate AbandonedInv(a: Agent) {
    && (forall c :: c in a.abandoned ==>
          c < |a.stream| && (FileCall(a.stream[c]) || NondeterministicCall(a.stream[c])))
    && (forall c, i :: c in a.abandoned && i in a.answers ==> a.answers[i] != c)
    && (forall c, t, k :: c in a.abandoned && t in a.bridges && 0 <= k < |a.bridges[t]| ==> a.bridges[t][k].call != c)
  }

  lemma {:induction false} TopIsNew(a: Agent, t: nat)
    requires AgentInv(a) && AbandonedInv(a) && Stack(a, t) != []
    ensures OpenCall(a.stream, t, Top(a, t)) && Top(a, t).call !in a.abandoned
    ensures forall i :: i in a.answers ==> a.answers[i] != Top(a, t).call
    ensures forall u, k :: u in Popped(a, t) && 0 <= k < |Popped(a, t)[u]| ==> Popped(a, t)[u][k].call != Top(a, t).call
  {
    var k := |a.bridges[t]| - 1;
    assert OpenCall(a.stream, t, a.bridges[t][k]);
    assert a.bridges[t][k] == Top(a, t);
    forall u, k: nat | u in Popped(a, t) && k < |Popped(a, t)[u]|
      ensures Popped(a, t)[u][k].call != Top(a, t).call
    {
      TopIsNoOther(a, t, u, k);
    }
  }

  lemma {:induction false} CountedStay(stream: seq<RawEvent>, more: seq<RawEvent>, calls: set<nat>)
    requires forall c :: c in calls ==> c < |stream| && (FileCall(stream[c]) || NondeterministicCall(stream[c]))
    ensures forall c :: c in calls ==>
      c < |stream + more| && (FileCall((stream + more)[c]) || NondeterministicCall((stream + more)[c]))
  {
    assert forall c :: c in calls ==> (stream + more)[c] == stream[c];
  }

  lemma {:induction false} PoppedIsOlder(a: Agent, t: nat, u: nat, k: nat)
    requires Stack(a, t) != [] && u in Popped(a, t) && k < |Popped(a, t)[u]|
    ensures u in a.bridges && k < |a.bridges[u]| && Popped(a, t)[u][k] == a.bridges[u][k]
  {
  }

  lemma {:induction false} PopAbandons(a: Agent, s: Step, captureFileIo: bool)
    requires AgentInv(a) && AbandonedInv(a) && Enabled(a, s) && (s.Observe? || s.GiveUp?)
    ensures AbandonedInv(Apply(a, s, captureFileIo))
    ensures s.GiveUp? ==> |Apply(a, s, captureFileIo).abandoned| == |a.abandoned| + 1
    ensures s.Observe? ==> Apply(a, s, captureFileIo).abandoned == a.abandoned
  {
    var b := Apply(a, s, captureFileIo);
    TopIsNew(a, s.t);
    CountedStay(a.stream, Announcement(s), a.abandoned);
    assert b.stream[Top(a, s.t).call] == a.stream[Top(a, s.t).call];
    forall c, u, k: nat | c in b.abandoned && u in b.bridges && k < |b.bridges[u]|
      ensures b.bridges[u][k].call != c
    {
      PoppedIsOlder(a, s.t, u, k);
    }
  }

  lemma {:induction false} StepAbandons(a: Agent, s: Step, captureFileIo: bool)
    requires AgentInv(a) && AbandonedInv(a) && Enabled(a, s)
    ensures AbandonedInv(Apply(a, s, captureFileIo))
    ensures |Apply(a, s, captureFileIo).abandoned| == |a.abandoned| + (if s.GiveUp? then 1 else 0)
  {
    var b := Apply(a, s, captureFileIo);
    if s.Observe? || s.GiveUp? {
      PopAbandons(a, s, captureFileIo);
    } else {
      CountedStay(a.stream, Announcement(s), a.abandoned);
      if s.Call? && !Rewrite(s.site, captureFileIo).Untouched? {
        var bridge := InBridge(|a.stream|, Rewrite(s.site, captureFileIo).FileTape?);
        forall c, u, k: nat | c in b.abandoned && u in b.bridges && k < |b.bridges[u]|
          ensures b.bridges[u][k].call != c
        {
          PushedAt(a, s.t, bridge, u, k);
        }
      }
    }
  }

  lemma {:induction false} RunAbandons(steps: seq<Step>, captureFileIo: bool)
    requires Run(steps, captureFileIo).Some?
    ensures AbandonedInv(Run(steps, captureFileIo).value)
  {
    if steps != [] {
      var front := steps[..|steps| - 1];
      RunAbandons(front, captureFileIo);
      RunKeepsInv(front, captureFileIo);
      StepAbandons(Run(front, captureFileIo).value, steps[|steps| - 1], captureFileIo);
    }
  }

  /** A full-mode recording that lacks no capability has abandoned no rewritten call. */
  lemma {:induction false} CompleteMeansNothingAbandoned(steps: seq<Step>, captureFileIo: bool)
    requires Run(steps, captureFileIo).Some?
    requires forall c :: !Missing(Run(steps, captureFileIo).value.stream, c)
    ensures Run(steps, captureFileIo).value.abandoned == {}
  {
    var a := Run(steps, captureFileIo).value;
    RunAbandons(steps, captureFileIo);
    forall c | c in a.abandoned
      ensures Recorded(a, c)
    {
      CompleteMeansRecorded(steps, captureFileIo, c);
    }
  }

  // ---------------------------------------------------------------- calls the tape cannot answer

  /** No input answers this event or ever will. */
  ghost predicate Forsaken(a: Agent, call: nat) {
    && call < |a.stream|
    && (forall i :: i in a.answers ==> a.answers[i] != call)
    && (forall t, k :: t in a.bridges && 0 <= k < |a.bridges[t]| ==> a.bridges[t][k].call != call)
  }

  lemma {:induction false} ForsakenStays(a: Agent, s: Step, captureFileIo: bool, call: nat)
    requires AgentInv(a) && Forsaken(a, call) && Enabled(a, s)
    ensures Forsaken(Apply(a, s, captureFileIo), call)
    ensures Apply(a, s, captureFileIo).stream[call] == a.stream[call]
  {
    var b := Apply(a, s, captureFileIo);
    forall u, k: nat | u in b.bridges && k < |b.bridges[u]|
      ensures b.bridges[u][k].call != call
    {
      if s.Observe? || s.GiveUp? {
        PoppedIsOlder(a, s.t, u, k);
      } else if s.Call? && !Rewrite(s.site, captureFileIo).Untouched? {
        PushedAt(a, s.t, InBridge(|a.stream|, Rewrite(s.site, captureFileIo).FileTape?), u, k);
      }
    }
    if s.Observe? {
      assert Top(a, s.t) == a.bridges[s.t][|a.bridges[s.t]| - 1];
    }
  }

  lemma {:induction false} UntouchedIsForsaken(a: Agent, s: Step, captureFileIo: bool)
    requires AgentInv(a) && s.Call? && Rewrite(s.site, captureFileIo).Untouched?
    ensures Forsaken(Apply(a, s, captureFileIo), |a.stream|)
    ensures Apply(a, s, captureFileIo).stream[|a.stream|] == Announcement(s)[0]
  {
    forall t, k: nat | t in a.bridges && k < |a.bridges[t]|
      ensures a.bridges[t][k].call != |a.stream|
    {
      assert OpenCall(a.stream, t, a.bridges[t][k]);
    }
    forall i | i in a.answers
      ensures a.answers[i] != |a.stream|
    {
      assert AnswersCall(a.stream, i, a.answers[i]);
    }
  }

  /** A call made at step n through a site that is not rewritten is never answered. */
  lemma {:induction false} UntouchedStaysForsaken(steps: seq<Step>, captureFileIo: bool, n: nat) returns (call: nat)
    requires Run(steps, captureFileIo).Some? && n < |steps|
    requires steps[n].Call? && Rewrite(steps[n].site, captureFileIo).Untouched?
    ensures Forsaken(Run(steps, captureFileIo).value, call)
    ensures Run(steps, captureFileIo).value.stream[call] == Announcement(steps[n])[0]
  {
    var m := |steps| - 1;
    RunKeepsInv(steps[..m], captureFileIo);
    var a := Run(steps[..m], captureFileIo).value;
    if n == m {
      call := |a.stream|;
      UntouchedIsForsaken(a, steps[m], captureFileIo);
    } else {
      call := UntouchedStaysForsaken(steps[..m], captureFileIo, n);
      ForsakenStays(a, steps[m], captureFileIo, call);
    }
  }

  /** A full-mode recording that lacks no capability made every counted call through a rewritten site:
      none by another overload, another generator or another opcode, which the tape cannot answer. */
  lemma {:induction false} CompleteMeansRewritten(steps: seq<Step>, captureFileIo: bool, n: nat)
    requires Run(steps, captureFileIo).Some? && n < |steps| && steps[n].Call?
    requires forall c :: !Missing(Run(steps, captureFileIo).value.stream, c)
    ensures
      var site := steps[n].site;
      Nondeterministic(site.owner, site.name) || Io(site.owner) ==> !Rewrite(site, captureFileIo).Untouched?
  {
    if Rewrite(steps[n].site, captureFileIo).Untouched? {
      var a := Run(steps, captureFileIo).value;
      var call := UntouchedStaysForsaken(steps, captureFileIo, n);
      CompleteMeansRecorded(steps, captureFileIo, call);
      assert !Recorded(a, call);
    }
  }
}
