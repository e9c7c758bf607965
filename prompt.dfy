/** The SELF-DISCOVER prompt: the guard on the task the user typed and the
    f-string template the task is placed into (app.py lines 31-66). */
module Prompt {
  import opened PyStr
  import opened Wrappers

  /** The heading that introduces the task. */
  const TaskHeading: string := "## Task:\n"
  /** The heading that follows the task, on the next line. */
  const OutputHeading: string := "\n## Output Format:"

  /** The template's text up to the task heading. */
  const PromptIntro: string :=
    "\n"
    + "You are a strategic reasoning assistant applying the SELF-DISCOVER framework to complex tasks. \n"
    + "Your role is not just to answer, but to reason first.\n"
    + "## Instructions: Apply the following 3-stage reasoning process to the task:\n"
    + "### 1. SELECT \n"
    + "From a list of reasoning strategies below, select the most relevant modules for solving the problem.\n"
    + "Strategies include: Break down into sub-tasks; Evaluate unit economics; Use systems thinking; Analyse competitor positioning; Identify pricing inefficiencies; Spot underused growth loops; Model conversion bottlenecks; Explore localisation opportunities; Prioritise by impact \U{D7} feasibility; Conduct dynamic SWOT analysis\n"
    + "### 2. ADAPT \n"
    + "Rephrase each selected module into a task-specific step, tailored to the problem at hand.\n"
    + "### 3. IMPLEMENT \n"
    + "Output your plan as a structured JSON object, where each key is a reasoning step and each value is a plain-language description of what you will do.\n"
    + "---\n"
    + "## Stage 2 \U{2013} Execute the Reasoning Plan:\n"
    + "Use your own plan to solve the task:\n"
    + "- Generate actionable insights  \n"
    + "- Identify 3\U{2013}5 untapped strategic levers  \n"
    + "- Score each lever on **Impact** and **Feasibility** (scale of 1\U{2013}5)  \n"
    + "- Recommend top 2\U{2013}3 priorities based on overall score  \n"
    + "- Clearly note assumptions, unknowns, or data gaps\n"
    + "---\n"

  /** Everything the template puts before the task, ending in the
      `## Task:` heading. The f-string opens with a line break. */
  const PromptPrefix: string := PromptIntro + TaskHeading

  /** Everything the template puts after the task: the requested JSON shape.
      The doubled braces of the f-string stand for single braces. */
  const PromptSuffix: string :=
    OutputHeading
    + "\n"
    + "```json\n"
    + "{\n"
    + "  \"selected_modules\": [...],\n"
    + "  \"adapted_structure\": { \"Step 1\": \"...\", \U{2026} },\n"
    + "  \"opportunity_gaps\": [\"1. \U{2026}\", \U{2026}],\n"
    + "  \"prioritized_actions\": [{ \"action\": \"...\", \"impact\": X, \"feasibility\": Y, \U{2026} }]\n"
    + "}\n"
    + "```\n"

  /** `not task` is false: the only task refused is the empty string, so a
      task made only of whitespace is accepted. */
  predicate TaskGiven(task: string): (b: bool)
    ensures b <==> |task| > 0
    ensures |task| > 0 && (forall k :: 0 <= k < |task| ==> IsSpace(task[k])) ==> b
  {
    task != []
  }

  /** The rendered f-string: the task is inserted verbatim between the
      fixed prefix and the fixed suffix. */
  function BuildPrompt(task: string): (p: string)
    ensures |p| == |PromptPrefix| + |task| + |PromptSuffix|
  {
    PromptPrefix + task + PromptSuffix
  }

  /** Reads the task back out of a prompt, if the prompt has the template's
      shape. */
  function TaskOf(prompt: string): (r: Option<string>)
    ensures r.Some? ==> |r.value| + |PromptPrefix| + |PromptSuffix| == |prompt|
  {
    if StartsWith(prompt, PromptPrefix) && |PromptPrefix| + |PromptSuffix| <= |prompt|
       && EndsWith(prompt, PromptSuffix)
    then Some(prompt[|PromptPrefix|..|prompt| - |PromptSuffix|])
    else None
  }

  /** The prefix ends with the `## Task:` heading on its own line and the
      suffix starts on the line after the task with `## Output Format:`. */
  lemma TemplateFraming()
    ensures EndsWith(PromptPrefix, TaskHeading)
    ensures StartsWith(PromptSuffix, OutputHeading)
  {
    FramedParts([], PromptIntro, TaskHeading);
    assert [] + PromptIntro + TaskHeading == PromptPrefix;
    FramedParts(OutputHeading, PromptSuffix[|OutputHeading|..], []);
    assert OutputHeading + PromptSuffix[|OutputHeading|..] + [] == PromptSuffix;
  }

  /** The fixed text of the template: 1282 characters before the task and
      227 after it. */
  lemma TemplateText()
    ensures |PromptPrefix| == 1282 && |PromptSuffix| == 227
    ensures PromptPrefix[0] == '\n' && PromptSuffix[|PromptSuffix| - 1] == '\n'
  {
  }

  /** A text framed by `pre` and `suf` starts with `pre`, ends with `suf`
      and has the text itself in between. */
  lemma FramedParts(pre: string, t: string, suf: string)
    ensures StartsWith(pre + t + suf, pre) && EndsWith(pre + t + suf, suf)
    ensures (pre + t + suf)[|pre|..|pre + t + suf| - |suf|] == t
  {
    var p := pre + t + suf;
    assert p[..|pre|] == pre;
    assert p[|p| - |suf|..] == suf;
    assert p[|pre|..|p| - |suf|] == t;
  }

  /** A string that starts with `pre` and ends with `suf`, without overlap,
      is `pre`, then its middle, then `suf`. */
  lemma FramedSplit(pre: string, suf: string, p: string)
    requires StartsWith(p, pre) && EndsWith(p, suf) && |pre| + |suf| <= |p|
    ensures p == pre + p[|pre|..|p| - |suf|] + suf
  {
    assert p == p[..|pre|] + p[|pre|..|p| - |suf|] + p[|p| - |suf|..];
  }

  /** The task is carried verbatim: it can be read back from the prompt. */
  lemma {:induction false} TaskRoundTrip(task: string)
    ensures TaskOf(BuildPrompt(task)) == Some(task)
  {
    FramedParts(PromptPrefix, task, PromptSuffix);
  }

  /** Different tasks give different prompts. */
  lemma BuildPromptInjective(t1: string, t2: string)
    requires BuildPrompt(t1) == BuildPrompt(t2)
    ensures t1 == t2
  {
    TaskRoundTrip(t1);
    TaskRoundTrip(t2);
  }

  /** The prompt is the template's prefix, then the task, then the suffix,
      and any string of that shape is the prompt for its task. */
  lemma PromptShape(task: string, p: string)
    ensures p == BuildPrompt(task) <==> TaskOf(p) == Some(task)
  {
    TaskRoundTrip(task);
    if TaskOf(p) == Some(task) {
      FramedSplit(PromptPrefix, PromptSuffix, p);
    }
  }
}
