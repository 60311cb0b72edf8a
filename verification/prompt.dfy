/** The instruction text sent to the generation provider: a fixed template
    with three substitutions (genre label, target word count, outline). */
module Prompt {
  import opened Wrappers
  import opened Text
  import opened Catalog

  /** The template text before the genre label. */
  const Opening: string := "你是一位顶级的畅销书小说家。请根据以下要求创作一篇小说：\n\n题材："
  /** The template text between the genre label and the word count. */
  const LabelBreak: string := "\n目标字数：大约 "
  /** The template text between the word count and the outline. */
  const TargetBreak: string := " 字\n故事大纲：\n"
  /** The fixed list of structural requirements after the outline. */
  const Requirements: string := "\n\n要求：\n1. **必须包含一个吸引人的小说标题**（放在最开头，使用一级标题格式）。\n2. **必须按照章节结构进行创作**（例如：第一章、第二章等，使用二级标题格式）。\n3. 文笔流畅，富有感染力，符合所选题材的风格。\n4. 结构完整，包含起承转合。\n5. 人物形象生动，对话自然。\n6. 请直接输出小说内容，不需要任何额外的解释或开场白。"
  /** The persona sent beside the prompt as the system instruction. */
  const SystemInstruction: string := "你是一位专业的小说家，擅长各种题材的文学创作。"

  /** What a template literal prints for an absent value. */
  const Undefined: string := "undefined"

  /** `${selectedGenre}`: the label, or "undefined" when the lookup failed. */
  function ShowLabel(genreLabel: Option<string>): (r: string)
    ensures genreLabel.Some? ==> r == genreLabel.value
    ensures genreLabel.None? ==> r == Undefined
  {
    match genreLabel
    case Some(l) => l
    case None => Undefined
  }

  /** `${selectedWordCount}`: the decimal target, or "undefined". A present
      target renders as digits that read back as that target. */
  function ShowTarget(target: Option<nat>): (r: string)
    ensures target.None? ==> r == Undefined
    ensures target.Some? ==> (forall i :: 0 <= i < |r| ==> IsDigit(r[i])) && ParseNat(r) == target.value
  {
    match target
    case Some(n) => ParseShowNat(n); ShowNat(n)
    case None => Undefined
  }

  /** The rendered substitutions show whether the lookups succeeded: the
      text "undefined" appears in place of the label or the target exactly
      when the identifier is not in its table. */
  lemma RenderedSelection(genre: string, wordCount: string)
    ensures ShowLabel(GenreLabel(genre)) == Undefined <==> !Listed(Genres, GenreId, genre)
    ensures ShowTarget(TargetWords(wordCount)) == Undefined <==> !Listed(WordCounts, WordCountId, wordCount)
  {
    if TargetWords(wordCount).Some? {
      assert IsDigit(ShowTarget(TargetWords(wordCount))[0]);
    }
  }

  /** Three substitutions `x`, `y`, `z` interleaved with four fixed pieces. */
  function Frame(a: string, x: string, b: string, y: string, c: string, z: string, d: string): string {
    a + x + b + y + c + z + d
  }

  /** The template with its three substitutions already rendered as text.
      Each substitution occurs in the prompt, and reading the prompt back
      recovers all three, provided the label has no line break and the
      target no space (otherwise the reader cannot tell where they end). */
  function Compose(genreLabel: string, target: string, outline: string): (r: string)
    ensures Contains(r, genreLabel) && Contains(r, target) && Contains(r, outline)
    ensures '\n' !in genreLabel && ' ' !in target ==>
              ParsePrompt(r) == Some(Fields(genreLabel, target, outline))
  {
    var r := Frame(Opening, genreLabel, LabelBreak, target, TargetBreak, outline, Requirements);
    Layout(Opening, genreLabel, LabelBreak, target, TargetBreak, outline, Requirements);
    assert OccursAt(r, genreLabel, |Opening|);
    assert OccursAt(r, target, |Opening| + |genreLabel| + |LabelBreak|);
    assert OccursAt(r, outline, |r| - |Requirements| - |outline|);
    if '\n' in genreLabel || ' ' in target then r
    else
      Breaks();
      UnframeFrame(Opening, genreLabel, LabelBreak, target, TargetBreak, outline, Requirements);
      r
  }

  /** The substituted values, as a reader of the prompt recovers them. */
  datatype Fields = Fields(genreLabel: string, target: string, outline: string)

  /** Reads the substitutions back out of a framed text: the first runs up to
      the first character of `b`, the second up to the first character of
      `c`, and the third up to the closing piece `d`. */
  function Unframe(a: string, b: string, c: string, d: string, p: string): Option<Fields>
    requires |b| > 0 && |c| > 0
  {
    if |p| < |a| + |d| || p[..|a|] != a || p[|p| - |d|..] != d then None
    else
      var body := p[|a|..|p| - |d|];
      var x := BeforeFirst(body, b[0]);
      var afterX := body[|x|..];
      if !(b <= afterX) then None
      else
        var afterB := afterX[|b|..];
        var y := BeforeFirst(afterB, c[0]);
        var afterY := afterB[|y|..];
        if !(c <= afterY) then None
        else Some(Fields(x, y, afterY[|c|..]))
  }

  /** Reads the genre label, the target and the outline back out of a
      prompt. */
  function ParsePrompt(p: string): Option<Fields> {
    Unframe(Opening, LabelBreak, TargetBreak, Requirements, p)
  }

  lemma Breaks()
    ensures |LabelBreak| > 0 && LabelBreak[0] == '\n'
    ensures |TargetBreak| > 0 && TargetBreak[0] == ' '
  {
  }

  /** Where each substitution sits in a framed text. */
  lemma Layout(a: string, x: string, b: string, y: string, c: string, z: string, d: string)
    ensures var p := Frame(a, x, b, y, c, z, d);
      && p[..|a|] == a
      && OccursAt(p, x, |a|)
      && OccursAt(p, y, |a| + |x| + |b|)
      && OccursAt(p, z, |p| - |d| - |z|)
      && p[|p| - |d|..] == d
  {
    var p := Frame(a, x, b, y, c, z, d);
    assert p[|a|..|a| + |x|] == x;
    assert p[|a| + |x| + |b|..|a| + |x| + |b| + |y|] == y;
    assert p[|p| - |d| - |z|..|p| - |d|] == z;
  }

  /** Where each substitution sits in a composed prompt. */
  lemma ComposeLayout(genreLabel: string, target: string, outline: string)
    ensures var p := Compose(genreLabel, target, outline);
      && p[..|Opening|] == Opening
      && OccursAt(p, genreLabel, |Opening|)
      && OccursAt(p, target, |Opening| + |genreLabel| + |LabelBreak|)
      && OccursAt(p, outline, |p| - |Requirements| - |outline|)
      && p[|p| - |Requirements|..] == Requirements
  {
    Layout(Opening, genreLabel, LabelBreak, target, TargetBreak, outline, Requirements);
  }

  /** Reading a framed text back recovers its substitutions, provided the
      first avoids the first character of `b` and the second that of `c`. */
  lemma UnframeFrame(a: string, x: string, b: string, y: string, c: string, z: string, d: string)
    requires |b| > 0 && |c| > 0 && b[0] !in x && c[0] !in y
    ensures Unframe(a, b, c, d, Frame(a, x, b, y, c, z, d)) == Some(Fields(x, y, z))
  {
    var afterB := y + (c + z);
    var afterX := b + afterB;
    var body := x + afterX;
    assert Frame(a, x, b, y, c, z, d) == a + body + d;
    StripFrame(a, body, d);
    BeforeFirstAt(x, b[0], afterX);
    DropPrefix(x, afterX);
    DropPrefix(b, afterB);
    BeforeFirstAt(y, c[0], c + z);
    DropPrefix(y, c + z);
    DropPrefix(c, z);
  }

  lemma StripFrame(a: string, m: string, d: string)
    ensures var p := a + m + d;
      |p| >= |a| + |d| && p[..|a|] == a && p[|p| - |d|..] == d && p[|a|..|p| - |d|] == m
  {
    var p := a + m + d;
    assert p[..|a|] == a;
    assert p[|p| - |d|..] == d;
    assert p[|a|..|p| - |d|] == m;
  }

  lemma DropPrefix(a: string, b: string)
    ensures a <= a + b && (a + b)[|a|..] == b
  {
  }

  /** `prompt` for the chosen genre and length identifiers and the outline,
      exactly as the template literal renders it. */
  function BuildPrompt(genre: string, wordCount: string, outline: string): (r: string)
    ensures Contains(r, outline)
    ensures forall i :: 0 <= i < |Genres| && Genres[i].id == genre ==> Contains(r, Genres[i].display)
    ensures forall i :: 0 <= i < |WordCounts| && WordCounts[i].id == wordCount
              ==> Contains(r, ShowNat(WordCounts[i].value))
    ensures !Listed(Genres, GenreId, genre) || !Listed(WordCounts, WordCountId, wordCount) ==> Contains(r, Undefined)
  {
    var genreLabel := ShowLabel(GenreLabel(genre));
    var target := ShowTarget(TargetWords(wordCount));
    GenreLabels();
    WordCountTargets();
    Compose(genreLabel, target, outline)
  }

  /** Every prompt the component can build reads back into the outline
      verbatim, the rendered genre label and the rendered target; when both
      identifiers are listed, those are the table's label and the decimal
      digits of the table's word count. */
  lemma ParseBuildPrompt(genre: string, wordCount: string, outline: string)
    ensures ParsePrompt(BuildPrompt(genre, wordCount, outline))
            == Some(Fields(ShowLabel(GenreLabel(genre)), ShowTarget(TargetWords(wordCount)), outline))
    ensures Listed(Genres, GenreId, genre) && Listed(WordCounts, WordCountId, wordCount) ==>
              exists i, j :: 0 <= i < |Genres| && 0 <= j < |WordCounts|
                && Genres[i].id == genre && WordCounts[j].id == wordCount
                && ParsePrompt(BuildPrompt(genre, wordCount, outline))
                   == Some(Fields(Genres[i].display, ShowNat(WordCounts[j].value), outline))
  {
    var genreLabel := ShowLabel(GenreLabel(genre));
    var target := ShowTarget(TargetWords(wordCount));
    LabelsSingleLine();
    assert '\n' !in genreLabel;
    assert ' ' !in target by {
      if TargetWords(wordCount).Some? {
        var s := ShowNat(TargetWords(wordCount).value);
        assert forall k :: 0 <= k < |s| ==> IsDigit(s[k]);
      }
    }
  }

  /** Distinct outlines give distinct prompts, whatever the selection. */
  lemma BuildPromptInjective(genre: string, wordCount: string, a: string, b: string)
    ensures BuildPrompt(genre, wordCount, a) == BuildPrompt(genre, wordCount, b) ==> a == b
  {
    ParseBuildPrompt(genre, wordCount, a);
    ParseBuildPrompt(genre, wordCount, b);
  }
}
