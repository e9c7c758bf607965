/** One press of the "Run SELF-DISCOVER" button (app.py lines 30-90): the
    task guard, the prompt, one call to the chat service, the clean-up and
    the choice between the parsed reply and the raw reply. The chat service
    and the JSON parser are parameters of the model. */
module App {
  import opened PyStr
  import opened Wrappers
  import opened Prompt
  import opened Cleanup

  /** What the chat service gives back for one prompt: the reply text, or
      the text of the exception raised by the request. */
  datatype Reply = Replied(content: string) | Failed(message: string)

  /** What the page shows after the button press. */
  datatype Screen<V> =
    | ErrorBox(message: string)
    | JsonView(data: V)
    | RawView(warning: string, text: string)

  /** The screen, together with every prompt sent to the chat service. */
  datatype Outcome<V> = Outcome(sent: seq<string>, screen: Screen<V>)

  const MissingTaskMessage: string := "Please enter a task above."
  const InvalidJsonWarning: string :=
    "\U{26A0}\U{FE0F} Response wasn't valid JSON \U{2014} showing raw output:"
  const ApiErrorPrefix: string := "Error calling OpenAI API: "

  /** `call_openai`: the reply of the service, trimmed. */
  function CallOpenAI(prompt: string, service: string -> Reply): (r: Reply)
    ensures r.Replied? <==> service(prompt).Replied?
    ensures r.Replied? ==> r.content == Strip(service(prompt).content)
    ensures r.Replied? ==> IsStripped(r.content)
    ensures r.Failed? ==> r == service(prompt)
  {
    match service(prompt)
    case Replied(content) => Replied(Strip(content))
    case Failed(message) => Failed(message)
  }

  /** Parse the cleaned reply; when the parser refuses it, show the reply
      as it came from the service, under a warning. */
  function ParseOrFallback<V>(raw: string, loads: string -> Option<V>): (s: Screen<V>)
    ensures s.JsonView? <==> loads(Cleaned(raw)).Some?
    ensures s.JsonView? ==> s.data == loads(Cleaned(raw)).value
    ensures s.RawView? ==> s.text == raw && s.warning == InvalidJsonWarning
    ensures !s.ErrorBox?
  {
    match loads(Cleaned(raw))
    case Some(data) => JsonView(data)
    case None => RawView(InvalidJsonWarning, raw)
  }

  /** The button handler. An empty task sends nothing; any other task sends
      exactly its prompt, once. */
  function RunSelfDiscover<V>(task: string, service: string -> Reply, loads: string -> Option<V>): (o: Outcome<V>)
    ensures o.sent == [] <==> !TaskGiven(task)
    ensures TaskGiven(task) ==> o.sent == [BuildPrompt(task)]
    ensures !TaskGiven(task) ==> o.screen == ErrorBox(MissingTaskMessage)
    ensures TaskGiven(task) && service(BuildPrompt(task)).Replied? ==>
      o.screen == ParseOrFallback(Strip(service(BuildPrompt(task)).content), loads)
    ensures TaskGiven(task) && service(BuildPrompt(task)).Failed? ==>
      o.screen == ErrorBox(ApiErrorPrefix + service(BuildPrompt(task)).message)
  {
    if !TaskGiven(task) then
      Outcome([], ErrorBox(MissingTaskMessage))
    else
      var prompt := BuildPrompt(task);
      match CallOpenAI(prompt, service)
      case Failed(message) => Outcome([prompt], ErrorBox(ApiErrorPrefix + message))
      case Replied(raw) => Outcome([prompt], ParseOrFallback(raw, loads))
  }

  /** A task of whitespace only is not refused: its prompt is sent. */
  lemma WhitespaceTaskIsSent<V>(task: string, service: string -> Reply, loads: string -> Option<V>)
    requires task != [] && forall k :: 0 <= k < |task| ==> IsSpace(task[k])
    ensures RunSelfDiscover(task, service, loads).sent == [BuildPrompt(task)]
  {
  }

  /** When the parser refuses, the page shows the raw reply and not the
      cleaned text; the two differ whenever the reply carried a marker. */
  lemma {:induction false} FallbackShowsRawReply<V>(raw: string, loads: string -> Option<V>)
    requires loads(Cleaned(raw)).None?
    requires StartsWith(raw, JsonFence) || EndsWith(raw, Fence)
    ensures ParseOrFallback(raw, loads).text == raw != Cleaned(raw)
  {
    FencedReplyShrinks(raw);
  }

  /** End to end: when the service answers with a JSON code block, possibly
      surrounded by whitespace, the parser is given the block's trimmed body
      and its value is what is shown. */
  lemma {:induction false} FencedReplyIsParsed<V>(task: string, w1: string, body: string, w2: string,
                                                  service: string -> Reply, loads: string -> Option<V>)
    requires TaskGiven(task)
    requires forall k :: 0 <= k < |w1| ==> IsSpace(w1[k])
    requires forall k :: 0 <= k < |w2| ==> IsSpace(w2[k])
    requires service(BuildPrompt(task)) == Replied(w1 + JsonFence + body + Fence + w2)
    requires loads(Strip(body)).Some?
    ensures RunSelfDiscover(task, service, loads).screen == JsonView(loads(Strip(body)).value)
  {
    var block := JsonFence + body + Fence;
    assert IsStripped(block) by {
      assert block[0] == '`' && block[|block| - 1] == '`';
    }
    assert w1 + JsonFence + body + Fence + w2 == w1 + block + w2;
    StripPadding(w1, block, w2);
    FencedRoundTrip(body);
  }

  /** End to end: when the parser refuses the cleaned reply, the page shows
      the trimmed reply as the service sent it. */
  lemma {:induction false} RefusedReplyIsShownRaw<V>(task: string, content: string, service: string -> Reply, loads: string -> Option<V>)
    requires TaskGiven(task)
    requires service(BuildPrompt(task)) == Replied(content)
    requires loads(Cleaned(Strip(content))).None?
    ensures RunSelfDiscover(task, service, loads).screen == RawView(InvalidJsonWarning, Strip(content))
  {
  }
}
