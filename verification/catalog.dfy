/** The two static option tables of the form and their `find` lookups. */
module Catalog {
  import opened Wrappers
  import opened Text

  /** One genre button: identifier, display label (`label` in the source), short description. */
  datatype Genre = Genre(id: string, display: string, desc: string)

  /** One length button: identifier, display label, target word count. */
  datatype WordCount = WordCount(id: string, display: string, value: nat)

  const Genres: seq<Genre> := [
    Genre("scifi", "科幻题材", "星际、未来、赛博朋克"),
    Genre("xianxia", "修仙题材", "修真、飞升、法宝"),
    Genre("postapoc", "末世题材", "废土、丧尸、生存"),
    Genre("fantasy", "奇幻魔法", "剑与魔法、异世界"),
    Genre("urban", "现代都市", "职场、恋爱、日常"),
    Genre("mystery", "悬疑推理", "探案、惊悚、解谜")
  ]

  const WordCounts: seq<WordCount> := [
    WordCount("short", "短篇 (~5000字)", 5000),
    WordCount("medium", "中篇 (~20000字)", 20000),
    WordCount("long", "长篇 (~50000字)", 50000)
  ]

  function GenreId(g: Genre): string { g.id }

  function WordCountId(w: WordCount): string { w.id }

  /** Some entry of `table` has identifier `id`, read by `key`. */
  predicate Listed<T>(table: seq<T>, key: T -> string, id: string) {
    exists i :: 0 <= i < |table| && key(table[i]) == id
  }

  /** `table.find(e => e.id === id)`: the first entry with that identifier,
      or `None` (JavaScript's `undefined`) when there is none. */
  function Find<T(==)>(table: seq<T>, key: T -> string, id: string): (r: Option<T>)
    ensures r.None? <==> !Listed(table, key, id)
    ensures r.Some? ==> exists i :: 0 <= i < |table| && table[i] == r.value && key(r.value) == id
                          && forall j :: 0 <= j < i ==> key(table[j]) != id
  {
    if |table| == 0 then None
    else if key(table[0]) == id then Some(table[0])
    else
      var r := Find(table[1..], key, id);
      assert Listed(table[1..], key, id) ==> Listed(table, key, id);
      assert Listed(table, key, id) ==> Listed(table[1..], key, id) by {
        if Listed(table, key, id) {
          var i :| 0 <= i < |table| && key(table[i]) == id;
          assert table[1..][i - 1] == table[i];
        }
      }
      if r.Some? then
        var i :| 0 <= i < |table[1..]| && table[1..][i] == r.value && key(r.value) == id
                 && forall j :: 0 <= j < i ==> key(table[1..][j]) != id;
        assert table[i + 1] == r.value;
        assert forall j :: 0 <= j < i + 1 ==> key(table[j]) != id by {
          forall j | 0 <= j < i + 1 ensures key(table[j]) != id {
            if j > 0 { assert table[j] == table[1..][j - 1]; }
          }
        }
        r
      else r
  }

  /** `GENRES.find(g => g.id === genre)?.display`. */
  function GenreLabel(id: string): (r: Option<string>)
    ensures r.Some? <==> Listed(Genres, GenreId, id)
    ensures r.Some? ==> exists i :: 0 <= i < |Genres| && Genres[i].id == id && Genres[i].display == r.value
  {
    match Find(Genres, GenreId, id)
    case Some(g) => Some(g.display)
    case None => None
  }

  /** `WORD_COUNTS.find(w => w.id === wordCount)?.value`. */
  function TargetWords(id: string): (r: Option<nat>)
    ensures r.Some? <==> Listed(WordCounts, WordCountId, id)
    ensures r.Some? ==> exists i :: 0 <= i < |WordCounts| && WordCounts[i].id == id && WordCounts[i].value == r.value
  {
    match Find(WordCounts, WordCountId, id)
    case Some(w) => Some(w.value)
    case None => None
  }

  /** The caption of a length button, `w.display.split(' ')[0]`. */
  function Caption(w: WordCount): (r: string)
    ensures |r| <= |w.display| && r == w.display[..|r|] && ' ' !in r
    ensures |r| < |w.display| ==> w.display[|r|] == ' '
  {
    BeforeFirst(w.display, ' ')
  }

  /** No two entries of either table share an identifier, so `find` returns
      the only entry with the identifier asked for. */
  lemma IdentifiersDistinct()
    ensures forall i, j :: 0 <= i < j < |Genres| ==> Genres[i].id != Genres[j].id
    ensures forall i, j :: 0 <= i < j < |WordCounts| ==> WordCounts[i].id != WordCounts[j].id
  {
  }

  /** Each genre identifier resolves to the label written beside it; the
      default genre (the first entry) is science fiction. */
  lemma GenreLabels()
    ensures forall i :: 0 <= i < |Genres| ==> GenreLabel(Genres[i].id) == Some(Genres[i].display)
    ensures Genres[0].id == "scifi" && GenreLabel("scifi") == Some("科幻题材")
    ensures |Genres| == 6
  {
    IdentifiersDistinct();
    forall i | 0 <= i < |Genres| ensures GenreLabel(Genres[i].id) == Some(Genres[i].display) {
      var r := GenreLabel(Genres[i].id);
      var k :| 0 <= k < |Genres| && Genres[k].id == Genres[i].id && Genres[k].display == r.value;
    }
  }

  /** The three length identifiers resolve to exactly 5000, 20000 and 50000
      words; any other identifier resolves to nothing. */
  lemma TargetValues(id: string)
    ensures TargetWords(id) == (if id == "short" then Some(5000)
                                else if id == "medium" then Some(20000)
                                else if id == "long" then Some(50000)
                                else None)
  {
  }

  /** An identifier outside the tables resolves to nothing. */
  lemma UnlistedResolvesToNothing(genre: string, wordCount: string)
    ensures (forall i :: 0 <= i < |Genres| ==> Genres[i].id != genre) ==> GenreLabel(genre).None?
    ensures (forall i :: 0 <= i < |WordCounts| ==> WordCounts[i].id != wordCount) ==> TargetWords(wordCount).None?
  {
  }

  /** Each length identifier resolves to the word count beside it. */
  lemma WordCountTargets()
    ensures forall i :: 0 <= i < |WordCounts| ==> TargetWords(WordCounts[i].id) == Some(WordCounts[i].value)
  {
    forall i | 0 <= i < |WordCounts| ensures TargetWords(WordCounts[i].id) == Some(WordCounts[i].value) {
      TargetValues(WordCounts[i].id);
    }
  }

  /** The button captions are the labels up to their first space. */
  lemma Captions()
    ensures Caption(WordCounts[0]) == "短篇"
    ensures Caption(WordCounts[1]) == "中篇"
    ensures Caption(WordCounts[2]) == "长篇"
  {
    ShortCaption();
    MediumCaption();
    LongCaption();
  }

  lemma ShortCaption()
    ensures Caption(WordCounts[0]) == "短篇"
  {
    CaptionOf(WordCounts[0], "短篇", "(~5000字)");
  }

  lemma MediumCaption()
    ensures Caption(WordCounts[1]) == "中篇"
  {
    CaptionOf(WordCounts[1], "中篇", "(~20000字)");
  }

  lemma LongCaption()
    ensures Caption(WordCounts[2]) == "长篇"
  {
    CaptionOf(WordCounts[2], "长篇", "(~50000字)");
  }

  lemma CaptionOf(w: WordCount, head: string, tail: string)
    requires w.display == head + " " + tail && ' ' !in head
    ensures Caption(w) == head
  {
    BeforeFirstOf(head, ' ', tail);
  }

  /** No label carries a line break, so a label ends at the first line break
      after it in the prompt. */
  lemma LabelsSingleLine()
    ensures forall i :: 0 <= i < |Genres| ==> '\n' !in Genres[i].display
  {
  }
}
