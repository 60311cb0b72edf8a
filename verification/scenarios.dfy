/** Concrete runs of the session: the worked examples the component's
    behaviour is usually explained with. */
module Scenarios {
  import opened Wrappers
  import opened Text
  import opened Catalog
  import opened Prompt
  import opened Session

  function Said(t: string): Chunk {
    Chunk(Some(t))
  }

  /** Chunks are concatenated in order; empty and text-less chunks add
      nothing. */
  lemma ChunksConcatenate()
    ensures Texts([Said("A"), Said("B"), Said("C")]) == "ABC"
    ensures Texts([Said("A"), Said(""), Said("C")]) == "AC"
    ensures Texts([Said("A"), Chunk(None), Said("C")]) == "AC"
  {
    ThreeChunks(Said("A"), Said("B"), Said("C"));
    ThreeChunks(Said("A"), Said(""), Said("C"));
    ThreeChunks(Said("A"), Chunk(None), Said("C"));
    assert "A" + "B" + "C" == "ABC";
    assert "A" + "" + "C" == "AC";
  }

  lemma ThreeChunks(a: Chunk, b: Chunk, c: Chunk)
    ensures Texts([a, b, c]) == TextOf(a) + TextOf(b) + TextOf(c)
  {
    assert [a, b, c][..2] == [a, b];
    TwoChunks(a, b);
  }

  lemma TwoChunks(a: Chunk, b: Chunk)
    ensures Texts([a, b]) == TextOf(a) + TextOf(b)
  {
    assert [a, b][..1] == [a];
    OneChunk(a);
  }

  lemma OneChunk(a: Chunk)
    ensures Texts([a]) == TextOf(a)
  {
    assert [a][..0] == [];
    assert Texts([a]) == "" + TextOf(a);
  }

  /** The decimal rendering of the medium target. */
  lemma ShowTwentyThousand()
    ensures ShowNat(20000) == "20000"
  {
    assert ShowNat(2) == "2";
    assert ShowNat(20) == "20";
    assert ShowNat(200) == "200";
    assert ShowNat(2000) == "2000";
  }

  /** A stream that fails after two chunks keeps them, shows the fallback
      message and leaves the form enabled. */
  lemma FailureKeepsPartialOutput(s: State)
    requires !s.isGenerating && !Blank(s.outline)
    ensures var r := Generate(s, Stream([Said("Once "), Said("upon")], Failed(None)));
      && r.result == "Once upon"
      && r.error == FallbackMessage && r.error != ""
      && !r.isGenerating
  {
    OnceUpon();
  }

  lemma OnceUpon()
    ensures Texts([Said("Once "), Said("upon")]) == "Once upon"
  {
    TwoChunks(Said("Once "), Said("upon"));
    assert "Once " + "upon" == "Once upon";
  }

  const Story: string := "A programmer discovers reality-editing code"

  /** The end-to-end example, request side: a science-fiction outline at
      medium length is accepted, and the request names the genre label, the
      target 20000 and the outline. */
  lemma ScienceFictionMediumRequest()
    ensures var s := Init().(outline := Story, wordCount := "medium");
      && Valid(s)
      && Start(s).request.Some?
      && Contains(Start(s).request.value.contents, "科幻题材")
      && Contains(Start(s).request.value.contents, "20000")
      && Contains(Start(s).request.value.contents, Story)
  {
    var s := Init().(outline := Story, wordCount := "medium");
    InitialState();
    assert WordCounts[1].id == "medium";
    assert !IsWhitespace(Story[0]);
    var p := BuildPrompt("scifi", "medium", Story);
    assert Start(s).request.value.contents == p;
    assert Genres[0].id == "scifi" && Contains(p, Genres[0].display);
    assert Contains(p, ShowNat(WordCounts[1].value));
    ShowTwentyThousand();
  }

  /** The end-to-end example, stream side: a stream that completes with
      text leaves the form idle, without error, with that text shown. */
  lemma ScienceFictionMediumCompletes(text: string)
    requires text != ""
    ensures var s := Init().(outline := Story, wordCount := "medium");
      var r := Generate(s, Stream([Said(text)], Completed));
      !r.isGenerating && r.error == "" && r.result == text
  {
    assert !IsWhitespace(Story[0]);
    OneChunk(Said(text));
  }
}
