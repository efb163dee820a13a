/**
 * The conversation's values: turns, transcripts, what one chat request
 * returns, and how the choices of a response are rendered.
 */
module Conversation {
  import opened Wrappers

  datatype Role = User | Assistant

  /** One `{"role": ..., "content": ...}` message. */
  datatype Turn = Turn(role: Role, content: string)

  /** The `messages` list, in conversation order. */
  type Transcript = seq<Turn>

  /** One entry of a response's `choices`: either it lacks the "message" key,
      or it has a message whose "content" key may be absent. */
  datatype Choice = NoMessage | Message(content: Option<string>)

  /**
   * What one call of `chat` ends in: a decoded 200 response, whose `choices`
   * (empty when the key is absent) are given, or an exception (a non-200
   * status, a connection error, a body that is not JSON) with its text.
   */
  datatype Outcome = Response(choices: seq<Choice>) | Failure(error: string)

  /** What `chat` is called with. */
  datatype Request = Request(apiKey: string, model: string, messages: Transcript)

  /** What the loop prints after a request: the contents of the choices, the
      "No response received." notice, or an error notice. */
  datatype Notice = Reply(parts: seq<string>) | NoResponse | Error(description: string)

  /** The text of the KeyError raised by `choice["message"]` on a choice
      without a message. */
  const MissingMessageError := "'message'"

  /** `choice["message"].get("content", "")`. */
  function ContentOf(c: Choice): string
    requires c.Message?
  {
    c.content.GetOr("")
  }

  /** Number of leading choices that have a message: how far the rendering
      loop gets before `choice["message"]` raises. */
  function RenderableCount(choices: seq<Choice>): (n: nat)
    ensures n <= |choices|
    ensures forall i :: 0 <= i < n ==> choices[i].Message?
    ensures n < |choices| ==> choices[n].NoMessage?
  {
    if choices == [] || choices[0].NoMessage? then 0
    else 1 + RenderableCount(choices[1..])
  }

  /** The contents printed for the first `n` choices. */
  function Contents(choices: seq<Choice>): (r: seq<string>)
    requires forall i :: 0 <= i < |choices| ==> choices[i].Message?
    ensures |r| == |choices|
    ensures forall i :: 0 <= i < |choices| ==> r[i] == ContentOf(choices[i])
  {
    if choices == [] then [] else [ContentOf(choices[0])] + Contents(choices[1..])
  }

  /** What is printed of a response's choices. */
  function Printed(choices: seq<Choice>): seq<string> {
    Contents(choices[..RenderableCount(choices)])
  }

  /** The content of the assistant turn a complete, non-empty response adds:
      that of its LAST choice. */
  function LastContent(choices: seq<Choice>): string
    requires choices != [] && RenderableCount(choices) == |choices|
  {
    ContentOf(choices[|choices| - 1])
  }

  /**
   * The loop over a non-empty `choices` that prints each choice's content and
   * keeps the last one. `complete` is false when some choice has no message
   * (the KeyError that ends the loop); `printed` is then what was printed
   * before it.
   */
  method RenderChoices(choices: seq<Choice>) returns (printed: seq<string>, content: string, complete: bool)
    requires choices != []
    ensures printed == Printed(choices)
    ensures complete <==> forall i :: 0 <= i < |choices| ==> choices[i].Message?
    ensures complete ==> |printed| == |choices| && content == printed[|choices| - 1] == LastContent(choices)
  {
    printed, content := [], "";
    var i := 0;
    while i < |choices|
      invariant i <= |choices|
      invariant forall j :: 0 <= j < i ==> choices[j].Message?
      invariant printed == Contents(choices[..i])
      invariant 0 < i ==> content == ContentOf(choices[i - 1])
    {
      var choice := choices[i];
      if choice.NoMessage? {
        assert RenderableCount(choices) == i;
        return printed, content, false;
      }
      content := ContentOf(choice);
      assert choices[..i + 1] == choices[..i] + [choice];
      ContentsAppend(choices[..i], choice);
      printed := printed + [content];
      i := i + 1;
    }
    assert choices[..i] == choices;
    complete := true;
  }

  lemma {:induction false} ContentsAppend(choices: seq<Choice>, c: Choice)
    requires forall i :: 0 <= i < |choices| ==> choices[i].Message?
    requires c.Message?
    ensures Contents(choices + [c]) == Contents(choices) + [ContentOf(c)]
  {
    if choices == [] {
      assert choices + [c] == [c];
    } else {
      assert (choices + [c])[1..] == choices[1..] + [c];
      ContentsAppend(choices[1..], c);
    }
  }

  /** The assistant turn, if any, that an outcome adds to the transcript. */
  function Answer(o: Outcome): Option<Turn> {
    match o
    case Failure(_) => None
    case Response(choices) =>
      if choices != [] && RenderableCount(choices) == |choices|
      then Some(Turn(Assistant, LastContent(choices)))
      else None
  }

  /** What is printed for an outcome. */
  function Notices(o: Outcome): seq<Notice> {
    match o
    case Failure(e) => [Error(e)]
    case Response(choices) =>
      if choices == [] then [NoResponse]
      else if RenderableCount(choices) == |choices| then [Reply(Printed(choices))]
      else [Reply(Printed(choices)), Error(MissingMessageError)]
  }

  /**
   * The rendering rules: a response with choices, all of which have a message,
   * yields exactly one assistant turn holding the last choice's content (""
   * when it has none) while every choice's content is printed; an empty
   * response or a failure yields no turn; a choice without a message turns
   * the response into an error after the contents before it were printed.
   */
  lemma AnswerRules(o: Outcome)
    ensures Answer(o).Some? <==> o.Response? && o.choices != [] && forall i :: 0 <= i < |o.choices| ==> o.choices[i].Message?
    ensures Answer(o).Some? ==> var cs := o.choices;
      Answer(o).value.role == Assistant &&
      Answer(o).value.content == cs[|cs| - 1].content.GetOr("") &&
      Notices(o) == [Reply(seq(|cs|, i requires 0 <= i < |cs| => cs[i].content.GetOr("")))]
    ensures Answer(o).None? ==> var n := Notices(o); n != [] && (n[|n| - 1] == NoResponse || n[|n| - 1].Error?)
  {
    if o.Response? && o.choices != [] && RenderableCount(o.choices) == |o.choices| {
      var cs := o.choices;
      assert cs[..|cs|] == cs;
      var all := seq(|cs|, i requires 0 <= i < |cs| => cs[i].content.GetOr(""));
      assert forall i :: 0 <= i < |cs| ==> Printed(cs)[i] == all[i];
      assert Printed(cs) == all;
    }
  }
}
