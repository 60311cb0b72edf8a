/** The generation session of the form: its state, the transitions
    `handleGenerate` and the form setters perform, and the stream of
    response chunks folded into the accumulated story text. */
module Session {
  import opened Wrappers
  import opened Text
  import opened Catalog
  import opened Prompt

  /** The component's six state cells. */
  datatype State = State(
    outline: string,
    genre: string,
    wordCount: string,
    isGenerating: bool,
    result: string,
    error: string)

  /** Shown when the outline is empty or whitespace only. */
  const ValidationMessage: string := "请输入故事大纲"
  /** Shown when a failure carries no message of its own. */
  const FallbackMessage: string := "生成过程中发生错误，请重试。"

  /** The request handed to the provider; the model name and the sampling
      temperature are fixed and not part of this model. */
  datatype Request = Request(contents: string, systemInstruction: string)

  /** One response chunk; `text` is absent on chunks that carry no text. */
  datatype Chunk = Chunk(text: Option<string>)

  /** How the provider's stream ended: exhausted, or by throwing an error
      whose `message` may be missing. */
  datatype Ending = Completed | Failed(message: Option<string>)

  /** Everything the provider delivers for one request, in arrival order. */
  datatype Stream = Stream(chunks: seq<Chunk>, ending: Ending)

  /** What the user and the provider can do, one event-loop turn each. */
  datatype Event =
    | StartClicked
    | ChunkArrived(chunk: Chunk)
    | StreamFailed(message: Option<string>)
    | StreamEnded
    | OutlineEdited(text: string)
    | GenreChosen(id: string)
    | LengthChosen(id: string)

  /** The state the component mounts with: idle, with nothing written,
      generated or reported, and with selections that resolve. */
  function Init(): (r: State)
    ensures Valid(r) && !r.isGenerating
    ensures r.outline == "" && r.result == "" && r.error == ""
  {
    State("", Genres[0].id, WordCounts[0].id, false, "", "")
  }

  /** The reachable states: both selections come from the tables, and no
      error is on display while a generation runs. */
  predicate Valid(s: State) {
    && Listed(Genres, GenreId, s.genre)
    && Listed(WordCounts, WordCountId, s.wordCount)
    && (s.isGenerating ==> s.error == "")
  }

  /** The initial state: empty outline, science fiction, short length, idle,
      nothing generated and no error; both lookups resolve. */
  lemma InitialState()
    ensures Init() == State("", "scifi", "short", false, "", "")
    ensures Valid(Init())
    ensures GenreLabel(Init().genre) == Some("科幻题材")
    ensures TargetWords(Init().wordCount) == Some(5000)
  {
  }

  /** The outcome of the start handler: the new state, and the request it
      opens a stream for, if any. */
  datatype Started = Started(state: State, request: Option<Request>)

  /** The state changes of the synchronous part of `handleGenerate`: a
      blank outline only shows the validation message; any other outline
      clears the error and the previous result and starts generating. The
      trigger button is disabled while a generation runs, so the handler is
      only ever invoked when idle. */
  function AfterClick(s: State): (r: State)
    requires !s.isGenerating
    ensures Blank(s.outline) ==> r == s.(error := ValidationMessage)
    ensures !Blank(s.outline) ==> r == s.(error := "", isGenerating := true, result := "")
    ensures r.isGenerating <==> !Blank(s.outline)
  {
    TrimEmptyIffBlank(s.outline);
    if Trim(s.outline) == "" then s.(error := ValidationMessage)
    else s.(error := "", isGenerating := true, result := "")
  }

  /** The start handler: its state changes, and the request it opens a
      stream for when it accepted the outline. */
  function Start(s: State): (r: Started)
    requires !s.isGenerating
    ensures Blank(s.outline) ==> r.request.None? && r.state == s.(error := ValidationMessage)
    ensures !Blank(s.outline) ==>
              && r.state == s.(error := "", isGenerating := true, result := "")
              && r.request == Some(Request(BuildPrompt(s.genre, s.wordCount, s.outline), SystemInstruction))
  {
    var t := AfterClick(s);
    if t.isGenerating then Started(t, Some(Request(BuildPrompt(s.genre, s.wordCount, s.outline), SystemInstruction)))
    else Started(t, None)
  }

  /** The text a chunk contributes: its text, or nothing when absent. */
  function TextOf(c: Chunk): string {
    c.text.GetOr("")
  }

  /** The loop body: a chunk with non-empty text is appended to the result. */
  function OnChunk(s: State, c: Chunk): (r: State)
    ensures r == s.(result := s.result + TextOf(c))
    ensures TextOf(c) == "" ==> r == s
  {
    if c.text.Some? && c.text.value != "" then s.(result := s.result + c.text.value) else s
  }

  /** `err.message || fallback`: the failure's own message when it has a
      non-empty one, and the fallback message otherwise. */
  function ErrorText(message: Option<string>): (r: string)
    ensures r != ""
    ensures message.Some? && message.value != "" ==> r == message.value
    ensures message.None? || message.value == "" ==> r == FallbackMessage
  {
    if message.Some? && message.value != "" then message.value else FallbackMessage
  }

  /** The `finally` block. */
  function Settle(s: State): (r: State)
    ensures !r.isGenerating
    ensures r.(isGenerating := s.isGenerating) == s
  {
    s.(isGenerating := false)
  }

  /** The `catch` block followed by the `finally` block: the error is shown,
      the partial result is kept and the form is enabled again. */
  function OnFailure(s: State, message: Option<string>): (r: State)
    ensures !r.isGenerating
    ensures r.error != "" && r.error == ErrorText(message)
    ensures r.result == s.result
    ensures r.outline == s.outline && r.genre == s.genre && r.wordCount == s.wordCount
  {
    Settle(s.(error := ErrorText(message)))
  }

  /** The chunks, concatenated in arrival order (the reference definition,
      built from the last chunk backwards). */
  function Texts(chunks: seq<Chunk>): string {
    if |chunks| == 0 then "" else Texts(chunks[..|chunks| - 1]) + TextOf(chunks[|chunks| - 1])
  }

  /** The `for await` loop over the chunks, one chunk after the other. It
      appends the concatenation of the chunks' texts, in arrival order, to
      the result and changes nothing else. */
  function Consume(s: State, chunks: seq<Chunk>): (r: State)
    ensures r == s.(result := s.result + Texts(chunks))
    decreases |chunks|
  {
    if |chunks| == 0 then s
    else
      TextsCons(chunks[0], chunks[1..]);
      assert chunks == [chunks[0]] + chunks[1..];
      Consume(OnChunk(s, chunks[0]), chunks[1..])
  }

  /** Peeling the first chunk off the front of the concatenation. */
  lemma {:induction false} TextsCons(c: Chunk, rest: seq<Chunk>)
    ensures Texts([c] + rest) == TextOf(c) + Texts(rest)
  {
    if |rest| > 0 {
      var last := rest[|rest| - 1];
      assert ([c] + rest)[..|rest|] == [c] + rest[..|rest| - 1];
      TextsCons(c, rest[..|rest| - 1]);
    } else {
      assert [c] + rest == [c];
    }
  }

  /** The same loop written as the component writes it: a running result
      extended once per chunk. */
  method ConsumeStream(s: State, chunks: seq<Chunk>) returns (t: State)
    ensures t.result == s.result + Texts(chunks)
    ensures t == s.(result := t.result)
    ensures t == Consume(s, chunks)
  {
    t := s;
    var i := 0;
    while i < |chunks|
      invariant 0 <= i <= |chunks|
      invariant t == s.(result := s.result + Texts(chunks[..i]))
    {
      assert chunks[..i + 1][..i] == chunks[..i];
      t := OnChunk(t, chunks[i]);
      i := i + 1;
    }
    assert chunks[..i] == chunks;
  }

  /** All of `handleGenerate` for one click while idle: validation, reset,
      the stream consumed chunk by chunk, then `catch` and `finally`. */
  function Generate(s: State, stream: Stream): (r: State)
    requires !s.isGenerating
    ensures Blank(s.outline) ==> r == s.(error := ValidationMessage)
    ensures !Blank(s.outline) ==>
              && !r.isGenerating
              && r.result == Texts(stream.chunks)
              && r.error == (if stream.ending.Completed? then "" else ErrorText(stream.ending.message))
              && r.outline == s.outline && r.genre == s.genre && r.wordCount == s.wordCount
  {
    var t := AfterClick(s);
    if !t.isGenerating then t
    else
      var u := Consume(t, stream.chunks);
      match stream.ending
      case Completed => Settle(u)
      case Failed(m) => OnFailure(u, m)
  }

  /** What the component can be asked to do: the trigger only while idle
      (the button is disabled otherwise), stream events only while a
      generation runs, and selections only from the rendered tables. */
  function Admissible(s: State, e: Event): (r: bool)
    ensures r && e.GenreChosen? ==> GenreLabel(e.id).Some?
    ensures r && e.LengthChosen? ==> TargetWords(e.id).Some?
  {
    match e
    case StartClicked => !s.isGenerating
    case ChunkArrived(_) => s.isGenerating
    case StreamFailed(_) => s.isGenerating
    case StreamEnded => s.isGenerating
    case OutlineEdited(_) => true
    case GenreChosen(id) => Listed(Genres, GenreId, id)
    case LengthChosen(id) => Listed(WordCounts, WordCountId, id)
  }

  /** One event-loop turn. An admissible event keeps a reachable state
      reachable. */
  function Step(s: State, e: Event): (r: State)
    requires e.StartClicked? ==> !s.isGenerating
    ensures Valid(s) && Admissible(s, e) ==> Valid(r)
  {
    match e
    case StartClicked => AfterClick(s)
    case ChunkArrived(c) => OnChunk(s, c)
    case StreamFailed(m) => OnFailure(s, m)
    case StreamEnded => Settle(s)
    case OutlineEdited(text) => s.(outline := text)
    case GenreChosen(id) => s.(genre := id)
    case LengthChosen(id) => s.(wordCount := id)
  }

  /** Every event of `events` is admissible in the state it arrives in. */
  predicate Admits(s: State, events: seq<Event>)
    decreases |events|
  {
    |events| == 0 || (Admissible(s, events[0]) && Admits(Step(s, events[0]), events[1..]))
  }

  /** The state after a sequence of events; an admissible run from a
      reachable state ends in a reachable state. */
  function Run(s: State, events: seq<Event>): (r: State)
    requires Admits(s, events)
    ensures Valid(s) ==> Valid(r)
    decreases |events|
  {
    if |events| == 0 then s else Run(Step(s, events[0]), events[1..])
  }

  /** Editing the outline or choosing a genre or a length changes that field
      alone: the generated text, the error and the phase are untouched. */
  lemma FormEditsTouchOnlyForm(s: State, e: Event)
    requires e.OutlineEdited? || e.GenreChosen? || e.LengthChosen?
    ensures var t := Step(s, e);
      && t.result == s.result && t.error == s.error && t.isGenerating == s.isGenerating
      && (e.OutlineEdited? ==> t.outline == e.text && t.genre == s.genre && t.wordCount == s.wordCount)
      && (e.GenreChosen? ==> t.genre == e.id && t.outline == s.outline && t.wordCount == s.wordCount)
      && (e.LengthChosen? ==> t.wordCount == e.id && t.outline == s.outline && t.genre == s.genre)
  {
  }

  /** Stream events never change the form fields. */
  lemma StreamEventsKeepForm(s: State, e: Event)
    requires e.ChunkArrived? || e.StreamFailed? || e.StreamEnded?
    ensures var t := Step(s, e);
      t.outline == s.outline && t.genre == s.genre && t.wordCount == s.wordCount
  {
  }

  /** Whatever the user does, the selected genre and length resolve in the
      tables, so the prompt carries a real label and a real target. */
  lemma SelectionsAlwaysResolve(events: seq<Event>)
    requires Admits(Init(), events)
    ensures var s := Run(Init(), events);
      && GenreLabel(s.genre).Some? && TargetWords(s.wordCount).Some?
      && (s.isGenerating ==> s.error == "")
  {
    InitialState();
  }

  /** The chunk events of a stream, in arrival order. */
  function Arrivals(chunks: seq<Chunk>): (r: seq<Event>)
    ensures |r| == |chunks|
  {
    if |chunks| == 0 then [] else [ChunkArrived(chunks[0])] + Arrivals(chunks[1..])
  }

  /** The terminal event of a stream. */
  function EndEvent(ending: Ending): Event {
    match ending
    case Completed => StreamEnded
    case Failed(m) => StreamFailed(m)
  }

  /** The events one accepted click produces. */
  function SessionEvents(stream: Stream): seq<Event> {
    [StartClicked] + (Arrivals(stream.chunks) + [EndEvent(stream.ending)])
  }

  /** While generating, the chunk events of a stream followed by its
      terminal event are admissible, and run to the state the `for await`
      loop reaches, followed by that terminal event. */
  lemma {:induction false} RunArrivals(s: State, chunks: seq<Chunk>, last: Event)
    requires s.isGenerating && (last.StreamEnded? || last.StreamFailed?)
    ensures Admits(s, Arrivals(chunks) + [last])
    ensures Run(s, Arrivals(chunks) + [last]) == Step(Consume(s, chunks), last)
    decreases |chunks|
  {
    var events := Arrivals(chunks) + [last];
    if |chunks| > 0 {
      var t := OnChunk(s, chunks[0]);
      RunArrivals(t, chunks[1..], last);
      assert events[0] == ChunkArrived(chunks[0]);
      assert events[1..] == Arrivals(chunks[1..]) + [last];
    } else {
      assert events == [last];
      assert events[1..] == [];
    }
  }

  /** A run that begins with an admissible event is that event's step
      followed by the rest of the run. */
  lemma RunCons(s: State, e: Event, rest: seq<Event>)
    ensures Admissible(s, e) && Admits(Step(s, e), rest) ==>
              Admits(s, [e] + rest) && Run(s, [e] + rest) == Run(Step(s, e), rest)
  {
    assert ([e] + rest)[0] == e;
    assert ([e] + rest)[1..] == rest;
  }

  /** An accepted click, run as a whole, ends where its chunks and then its
      terminal event leave the reset state. */
  lemma GenerateAsSteps(s: State, stream: Stream)
    requires !s.isGenerating && !Blank(s.outline)
    ensures Generate(s, stream) == Step(Consume(AfterClick(s), stream.chunks), EndEvent(stream.ending))
  {
    var t := AfterClick(s);
    assert t.isGenerating;
  }

  /** The one-turn-at-a-time event view agrees with `handleGenerate` run as
      a whole: an accepted click, its chunks and its ending, delivered as
      separate events, end in the same state. */
  lemma EventsMatchGenerate(s: State, stream: Stream)
    requires !s.isGenerating && !Blank(s.outline)
    ensures Admits(s, SessionEvents(stream))
    ensures Run(s, SessionEvents(stream)) == Generate(s, stream)
  {
    var t := AfterClick(s);
    var last := EndEvent(stream.ending);
    var rest := Arrivals(stream.chunks) + [last];
    RunArrivals(t, stream.chunks, last);
    RunCons(s, StartClicked, rest);
    GenerateAsSteps(s, stream);
  }
}
