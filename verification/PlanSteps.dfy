/** One step of a plan: how the planner parses and prints it, and how the grouper and
    the executor read the printed form again. */
module PlanSteps {
  import opened Text

  datatype StepType = K8sTool | RagRetrieval | ProductivityTool | Reasoning | WebSearch | DocumentTool

  datatype PlanStep = PlanStep(stepType: StepType, description: string)

  function Name(t: StepType): string {
    match t
    case K8sTool => "K8S_TOOL"
    case RagRetrieval => "RAG_RETRIEVAL"
    case ProductivityTool => "PRODUCTIVITY_TOOL"
    case Reasoning => "REASONING"
    case WebSearch => "WEB_SEARCH"
    case DocumentTool => "DOCUMENT_TOOL"
  }

  /** The literal type of the model class: any other text is a validation error. */
  function TypeOf(name: string): Option<StepType> {
    if name == "K8S_TOOL" then Some(K8sTool)
    else if name == "RAG_RETRIEVAL" then Some(RagRetrieval)
    else if name == "PRODUCTIVITY_TOOL" then Some(ProductivityTool)
    else if name == "REASONING" then Some(Reasoning)
    else if name == "WEB_SEARCH" then Some(WebSearch)
    else if name == "DOCUMENT_TOOL" then Some(DocumentTool)
    else None
  }

  /** The keys of the executor's handler table. */
  const STEP_HANDLERS := {
    "K8S_TOOL", "RAG_RETRIEVAL", "PRODUCTIVITY_TOOL", "WEB_SEARCH",
    "DOCUMENT_TOOL", "TTS_TOOL", "CODE_GENERATION"
  }

  predicate Valid(s: PlanStep) {
    s.description != "" && Trimmed(s.description)
  }

  function ToString(s: PlanStep): string {
    Name(s.stepType) + ": " + s.description
  }

  /** Parsing with the field validators; None stands for the validation error. */
  function FromString(raw: string): (r: Option<PlanStep>)
    ensures r.Some? ==> Valid(r.value)
  {
    var colon := Find(raw, ':');
    FromParts(Strip(raw[..colon]), if colon < |raw| then Strip(raw[colon + 1..]) else raw)
  }

  /** The validators of the model class. */
  function FromParts(name: string, text: string): (r: Option<PlanStep>)
    ensures r.Some? ==> Valid(r.value)
  {
    var stepType, description := TypeOf(Upper(name)), Strip(text);
    if stepType.None? || description == "" then None else Some(PlanStep(stepType.value, description))
  }

  /** The grouper's and the executor node's test. */
  predicate IsReasoning(step: string) {
    StartsWith(Upper(step), "REASONING:")
  }

  /** The step type as the batch runner reads it. */
  function ExecutorType(step: string): string {
    Upper(Strip(Before(step, ':')))
  }

  /** The query as the batch runner cuts it out: it skips as many characters as the
      cleaned type has, plus one. */
  function Query(step: string): string {
    var from := |ExecutorType(step)| + 1;
    if from <= |step| then Strip(step[from..]) else ""
  }

  /** The task text of a reasoning step. */
  function ReasoningTask(step: string): string {
    if |"REASONING:"| <= |step| then Strip(step[|"REASONING:"|..]) else ""
  }

  lemma NameFacts(t: StepType)
    ensures Name(t) != "" && Trimmed(Name(t)) && Upper(Name(t)) == Name(t)
    ensures forall k :: 0 <= k < |Name(t)| ==> Name(t)[k] != ':'
    ensures TypeOf(Name(t)) == Some(t)
    ensures Name(t) in STEP_HANDLERS <==> !t.Reasoning?
    ensures Name(t) == "REASONING" <==> t.Reasoning?
  {
    assert Upper(Name(t)) == Name(t);
  }

  /** `p` reads `name: description`, and its first colon is the one behind the name. */
  predicate Reads(p: string, name: string, description: string) {
    && Trimmed(name) && Upper(name) == name
    && description != "" && Trimmed(description)
    && |p| == |name| + 2 + |description|
    && (forall k :: 0 <= k < |name| ==> p[k] == name[k] && name[k] != ':')
    && p[|name|] == ':' && p[|name| + 1] == ' '
    && (forall k :: |name| + 2 <= k < |p| ==> p[k] == description[k - |name| - 2])
  }

  lemma PrintedReads(s: PlanStep)
    requires Valid(s)
    ensures Reads(ToString(s), Name(s.stepType), s.description)
  {
    NameFacts(s.stepType);
    ReadsJoined(Name(s.stepType), s.description);
  }

  lemma ReadsJoined(name: string, description: string)
    requires Trimmed(name) && Upper(name) == name && forall k :: 0 <= k < |name| ==> name[k] != ':'
    requires description != "" && Trimmed(description)
    ensures Reads(name + ": " + description, name, description)
  {
  }

  /** How such a text splits. */
  lemma PrintedParts(p: string, name: string, description: string, tail: string)
    requires Reads(p, name, description) && tail == p[|name| + 1..]
    ensures Find(p, ':') == |name| && p[..|name|] == name && Strip(tail) == description
  {
    FindIs(p, ':', |name|);
    forall k | 1 <= k < 1 + |description| ensures tail[k] == description[k - 1] {
      assert tail[k] == p[|name| + 1 + k];
    }
    StripIs(tail, 1, description);
  }

  /** Parsing undoes printing, for every valid step. */
  lemma FromStringToString(s: PlanStep)
    requires Valid(s)
    ensures FromString(ToString(s)) == Some(s)
  {
    NameFacts(s.stepType);
    PrintedReads(s);
    PrintAndParse(s.stepType, ToString(s), Name(s.stepType), s.description);
  }

  lemma PrintAndParse(t: StepType, p: string, name: string, description: string)
    requires Reads(p, name, description) && TypeOf(name) == Some(t)
    ensures FromString(p) == Some(PlanStep(t, description))
  {
    PrintedParts(p, name, description, p[|name| + 1..]);
    StripTrimmed(name);
    StripTrimmed(description);
  }

  /** Parsing ignores the case of the type and white space around type and description. */
  lemma FromStringNormalises(t: StepType, raw: string, before: string, after: string, description: string)
    requires raw == before + ":" + after && ':' !in before
    requires Upper(Strip(before)) == Name(t) && Strip(after) == description != ""
    ensures FromString(raw) == Some(PlanStep(t, description))
  {
    FindIs(raw, ':', |before|);
    assert raw[..|before|] == before && raw[|before| + 1..] == after;
    StripTrimmed(description);
    PartsAre(t, Strip(before), Strip(after), description);
  }

  lemma PartsAre(t: StepType, name: string, text: string, description: string)
    requires Upper(name) == Name(t) && Strip(text) == description != ""
    ensures FromParts(name, text) == Some(PlanStep(t, description))
  {
    NameFacts(t);
  }

  /** Of a text without a colon the whole is both type and description. */
  lemma FromStringWithoutColon(t: StepType, raw: string)
    requires ':' !in raw && Upper(Strip(raw)) == Name(t)
    ensures FromString(raw) == Some(PlanStep(t, Strip(raw)))
  {
    assert raw[..|raw|] == raw;
    TypeIsNamed(t, Strip(raw));
    PartsAre(t, Strip(raw), raw, Strip(raw));
  }

  lemma TypeIsNamed(t: StepType, name: string)
    requires Upper(name) == Name(t)
    ensures name != ""
  {
  }

  /** What is parsed was written there: an unknown type or an empty description is rejected. */
  lemma FromStringIsWritten(raw: string, s: PlanStep)
    requires FromString(raw) == Some(s)
    ensures Upper(Strip(Before(raw, ':'))) == Name(s.stepType)
    ensures s.description == if ':' in raw then Strip(raw[Find(raw, ':') + 1..]) else Strip(raw)
  {
    var colon := Find(raw, ':');
    assert Before(raw, ':') == raw[..colon];
    TypeIsName(Upper(Strip(raw[..colon])));
    if colon < |raw| {
      StripTrimmed(Strip(raw[colon + 1..]));
    }
  }

  lemma TypeIsName(name: string)
    ensures TypeOf(name).Some? ==> Name(TypeOf(name).value) == name
  {
  }

  /** The four readers of a printed step agree: the grouper and the executor recognise
      exactly the REASONING steps, the batch runner recovers type and description, and
      every other step has a handler. */
  lemma ReadersAgree(s: PlanStep)
    requires Valid(s)
    ensures var p := ToString(s);
      && (IsReasoning(p) <==> s.stepType.Reasoning?)
      && ExecutorType(p) == Name(s.stepType)
      && (ExecutorType(p) in STEP_HANDLERS <==> !IsReasoning(p))
      && Query(p) == s.description
      && (IsReasoning(p) ==> ReasoningTask(p) == s.description)
  {
    NameFacts(s.stepType);
    PrintedReads(s);
    PrefixTest(ToString(s), Name(s.stepType), s.description);
    ReadParts(ToString(s), Name(s.stepType), s.description);
  }

  lemma ReadParts(p: string, name: string, description: string)
    requires Reads(p, name, description)
    ensures ExecutorType(p) == name && Query(p) == description
    ensures name == "REASONING" ==> ReasoningTask(p) == description
  {
    PrintedParts(p, name, description, p[|name| + 1..]);
    assert ExecutorType(p) == name;
    TailIs(p, name, |name| + 1, description);
  }

  /** What the readers make of the rest once they know where it starts. */
  lemma TailIs(p: string, name: string, from: nat, description: string)
    requires ExecutorType(p) == name && from == |name| + 1 <= |p|
    requires Strip(p[from..]) == description
    ensures Query(p) == description
    ensures |name| == 9 ==> ReasoningTask(p) == description
  {
  }

  lemma PrefixTest(p: string, name: string, description: string)
    requires Reads(p, name, description)
    ensures IsReasoning(p) <==> name == "REASONING"
  {
    SamePrefix(Upper(p), name, "REASONING");
  }

  lemma SamePrefix(u: string, name: string, tag: string)
    requires |name| < |u| && u[|name|] == ':'
    requires forall k :: 0 <= k < |name| ==> u[k] == name[k] && name[k] != ':'
    requires forall k :: 0 <= k < |tag| ==> tag[k] != ':'
    ensures tag + ":" <= u <==> name == tag
  {
    if tag + ":" <= u {
      assert forall k :: 0 <= k < |tag| ==> u[k] == (tag + ":")[k] == tag[k];
      assert u[|tag|] == (tag + ":")[|tag|] == ':';
      assert |name| == |tag|;
    }
    if name == tag {
      assert u[..|tag| + 1] == tag + ":";
    }
  }
}
