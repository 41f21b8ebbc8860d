// The text transformations a chat message goes through before it is rendered: wrapping a
// long single-line code block, replacing mermaid blocks and image-generation tags by
// placeholders, and the guess whether a message is still a streaming fragment.
module MessageContent {
  import opened Wrappers
  import opened Text

  // ---- addLineBreaksToLongLines ----

  const DefaultMaxLineLength: nat := 80

  /**
   * Whether `word` and its space would overflow a line already `lineLength` long; lengths are
   * JavaScript's, in UTF-16 code units.
   */
  predicate Overflows(word: string, maxLineLength: nat, lineLength: nat)
  {
    lineLength + JsLength(word) + 1 > maxLineLength
  }

  /** What one word adds: the word and a space, after a line feed when it overflows. */
  function WrapPiece(word: string, maxLineLength: nat, lineLength: nat): string
  {
    if Overflows(word, maxLineLength, lineLength) then "\n" + word + " " else word + " "
  }

  /** The line length after the word. */
  function NextLength(word: string, maxLineLength: nat, lineLength: nat): nat
  {
    if Overflows(word, maxLineLength, lineLength) then JsLength(word) + 1 else lineLength + JsLength(word) + 1
  }

  /** The words of a single line laid out greedily: a word that would overflow starts a new line. */
  function Wrap(words: seq<string>, maxLineLength: nat, lineLength: nat): string
  {
    if words == [] then ""
    else WrapPiece(words[0], maxLineLength, lineLength) + Wrap(words[1..], maxLineLength, NextLength(words[0], maxLineLength, lineLength))
  }

  /** addLineBreaksToLongLines as a function of its inputs. */
  function AddLineBreaks(code: string, maxLineLength: nat): (r: string)
    ensures '\n' in code || JsLength(code) <= maxLineLength ==> r == code
  {
    if '\n' in code then code
    else if JsLength(code) > maxLineLength then Trim(Wrap(Split(code, ' '), maxLineLength, 0))
    else code
  }

  /** The loop of addLineBreaksToLongLines: one pass over the words, tracking the current line length. */
  method WrapWords(words: seq<string>, maxLineLength: nat) returns (result: string)
    ensures result == Wrap(words, maxLineLength, 0)
  {
    result := "";
    var currentLineLength: nat := 0;
    ghost var flat := NoLineFeeds(words);
    for i := 0 to |words|
      invariant result + Wrap(words[i..], maxLineLength, currentLineLength) == Wrap(words, maxLineLength, 0)
      invariant flat ==> JsLength(LastLine(result)) == currentLineLength
    {
      var word := words[i];
      ghost var before, beforeLength := result, currentLineLength;
      if currentLineLength + JsLength(word) + 1 > maxLineLength {
        result := result + ("\n" + word + " ");
        currentLineLength := JsLength(word) + 1;
      } else {
        result := result + (word + " ");
        currentLineLength := currentLineLength + JsLength(word) + 1;
      }
      assert result == before + WrapPiece(word, maxLineLength, beforeLength);
      assert currentLineLength == NextLength(word, maxLineLength, beforeLength);
      WrapStep(words, i, maxLineLength, beforeLength, before);
      if flat {
        NoLineFeedsAt(words, i);
        CounterIsLineLength(before, word, maxLineLength, beforeLength);
      }
    }
  }

  /** One turn of the word loop: appending the word's piece moves the layout on by one word. */
  lemma WrapStep(words: seq<string>, i: nat, maxLineLength: nat, lineLength: nat, before: string)
    requires i < |words|
    ensures var piece := WrapPiece(words[i], maxLineLength, lineLength);
            (before + piece) + Wrap(words[i + 1..], maxLineLength, NextLength(words[i], maxLineLength, lineLength))
              == before + Wrap(words[i..], maxLineLength, lineLength)
  {
    assert words[i..][1..] == words[i + 1..];
  }

  /** addLineBreaksToLongLines: multi-line and short code is kept, a long line is wrapped at spaces. */
  method AddLineBreaksToLongLines(code: string, maxLineLength: nat) returns (r: string)
    ensures r == AddLineBreaks(code, maxLineLength)
  {
    if '\n' in code {
      return code;
    }
    if JsLength(code) > maxLineLength {
      var result := WrapWords(Split(code, ' '), maxLineLength);
      return Trim(result);
    }
    return code;
  }

  /** The text with every line feed deleted. */
  function DropNewlines(s: string): (r: string)
    ensures '\n' !in r
  {
    if s == [] then [] else (if s[0] == '\n' then [] else [s[0]]) + DropNewlines(s[1..])
  }

  lemma {:induction false} DropNewlinesAppend(a: string, b: string)
    ensures DropNewlines(a + b) == DropNewlines(a) + DropNewlines(b)
  {
    if a != [] {
      assert (a + b)[1..] == a[1..] + b;
      DropNewlinesAppend(a[1..], b);
    } else {
      assert a + b == b;
    }
  }

  lemma {:induction false} DropNewlinesNone(s: string)
    requires '\n' !in s
    ensures DropNewlines(s) == s
  {
    if s != [] {
      assert '\n' !in s[1..];
      DropNewlinesNone(s[1..]);
    }
  }

  /** Every word followed by one space, which is what the wrapper emits besides its line feeds. */
  function Spaced(words: seq<string>): string
  {
    if words == [] then "" else words[0] + " " + Spaced(words[1..])
  }

  /** One word of the wrapper: its line feed, if any, vanishes and the word and its space remain. */
  lemma WrapPieceDropNewlines(word: string, maxLineLength: nat, lineLength: nat)
    ensures DropNewlines(WrapPiece(word, maxLineLength, lineLength)) == DropNewlines(word + " ")
  {
    var piece := WrapPiece(word, maxLineLength, lineLength);
    if Overflows(word, maxLineLength, lineLength) {
      assert piece[1..] == word + " ";
    }
  }

  lemma {:induction false} WrapDropNewlines(words: seq<string>, maxLineLength: nat, lineLength: nat)
    ensures DropNewlines(Wrap(words, maxLineLength, lineLength)) == DropNewlines(Spaced(words))
  {
    if words != [] {
      var w := words[0];
      var next := NextLength(w, maxLineLength, lineLength);
      DropNewlinesAppend(WrapPiece(w, maxLineLength, lineLength), Wrap(words[1..], maxLineLength, next));
      WrapPieceDropNewlines(w, maxLineLength, lineLength);
      WrapDropNewlines(words[1..], maxLineLength, next);
      assert Spaced(words) == (w + " ") + Spaced(words[1..]);
      DropNewlinesAppend(w + " ", Spaced(words[1..]));
    }
  }

  lemma {:induction false} SpacedJoin(parts: seq<string>)
    requires |parts| >= 1
    ensures Spaced(parts) == Join(parts, ' ') + " "
  {
    if |parts| > 1 {
      SpacedJoin(parts[1..]);
    }
  }

  /**
   * Wrapping loses no character and reorders nothing: deleting the inserted line feeds from
   * the wrapped line, before its final trim, gives back the line followed by one space.
   */
  lemma WrapKeepsWords(code: string, maxLineLength: nat)
    requires '\n' !in code
    ensures DropNewlines(Wrap(Split(code, ' '), maxLineLength, 0)) == code + " "
  {
    var words := Split(code, ' ');
    WrapDropNewlines(words, maxLineLength, 0);
    SpacedJoin(words);
    JoinSplit(code, ' ');
    DropNewlinesNone(code + " ");
  }

  /** A line feed goes before a word exactly when the word and its space would overflow the line. */
  lemma WrapBreakRule(words: seq<string>, maxLineLength: nat, lineLength: nat)
    requires words != [] && '\n' !in words[0]
    ensures Wrap(words, maxLineLength, lineLength)[0] == '\n' <==> lineLength + JsLength(words[0]) + 1 > maxLineLength
  {
    var w := words[0];
    if lineLength + JsLength(w) + 1 <= maxLineLength && w != [] {
      assert w[0] in w;
    }
  }

  /** No word holds a line feed, as for the words of a single line. */
  predicate NoLineFeeds(words: seq<string>)
  {
    forall k :: 0 <= k < |words| ==> '\n' !in words[k]
  }

  lemma NoLineFeedsAt(words: seq<string>, i: nat)
    requires NoLineFeeds(words) && i < |words|
    ensures '\n' !in words[i]
  {
  }

  /** The text after the last line feed: the line the wrapper is currently filling. */
  function LastLine(s: string): (r: string)
    ensures '\n' !in r
  {
    if s == [] then []
    else if s[|s| - 1] == '\n' then []
    else LastLine(s[..|s| - 1]) + [s[|s| - 1]]
  }

  /** Text without a line feed extends the current line. */
  lemma {:induction false} LastLineAppend(a: string, b: string)
    requires '\n' !in b
    ensures LastLine(a + b) == LastLine(a) + b
    decreases |b|
  {
    if b == [] {
      assert a + b == a;
    } else {
      var c := b[|b| - 1];
      var b' := b[..|b| - 1];
      assert b == b' + [c];
      assert a + b == (a + b') + [c];
      assert (a + b)[..|a + b| - 1] == a + b';
      LastLineAppend(a, b');
    }
  }

  /** After a line feed the current line is exactly what follows it. */
  lemma AfterLineFeed(a: string, b: string)
    requires '\n' !in b
    ensures LastLine(a + "\n" + b) == b
  {
    assert LastLine(a + "\n") == [];
    LastLineAppend(a + "\n", b);
  }

  /**
   * The counter the wrapper keeps is the JavaScript length of the line it is filling: when it
   * holds before a word, it holds after the word's piece, whether or not a line feed went in.
   */
  lemma CounterIsLineLength(before: string, word: string, maxLineLength: nat, lineLength: nat)
    requires '\n' !in word && JsLength(LastLine(before)) == lineLength
    ensures JsLength(LastLine(before + WrapPiece(word, maxLineLength, lineLength)))
              == NextLength(word, maxLineLength, lineLength)
  {
    assert JsLength(" ") == 1 by {
      assert " "[1..] == [];
    }
    assert '\n' !in word + " ";
    if Overflows(word, maxLineLength, lineLength) {
      assert before + WrapPiece(word, maxLineLength, lineLength) == before + "\n" + (word + " ");
      AfterLineFeed(before, word + " ");
    } else {
      LastLineAppend(before, word + " ");
      JsLengthAppend(LastLine(before), word + " ");
    }
    JsLengthAppend(word, " ");
  }

  // ---- extractAndRemoveMermaidBlocks ----

  /** The first position at or after `from` where `pat` occurs. */
  function FindFrom(s: string, pat: string, from: nat): (r: Option<nat>)
    requires from <= |s|
    ensures r.Some? ==> from <= r.value <= |s| - |pat| && StartsWith(s[r.value..], pat)
    ensures r.Some? ==> forall i :: from <= i < r.value ==> !StartsWith(s[i..], pat)
    ensures r.None? ==> forall i :: from <= i <= |s| - |pat| ==> !StartsWith(s[i..], pat)
    decreases |s| - from
  {
    if from + |pat| > |s| then None
    else if StartsWith(s[from..], pat) then Some(from)
    else FindFrom(s, pat, from + 1)
  }

  /** String.prototype.replace with a string pattern: only the first occurrence is replaced. */
  function ReplaceFirst(s: string, pat: string, rep: string): (r: string)
    ensures !Contains(s, pat) ==> r == s
  {
    match FindFrom(s, pat, 0)
    case None => s
    case Some(i) => s[..i] + rep + s[i + |pat|..]
  }

  /** When the pattern occurs, exactly its first occurrence is replaced and the rest is kept. */
  lemma ReplaceFirstOccurrence(s: string, pat: string, rep: string)
    requires Contains(s, pat)
    ensures exists i :: (0 <= i <= |s| - |pat| && StartsWith(s[i..], pat)
              && (forall j :: 0 <= j < i ==> !StartsWith(s[j..], pat))
              && ReplaceFirst(s, pat, rep) == s[..i] + rep + s[i + |pat|..])
  {
    var i :| 0 <= i <= |s| - |pat| && StartsWith(s[i..], pat);
    var f := FindFrom(s, pat, 0);
    assert f.Some?;
    var k := f.value;
    assert ReplaceFirst(s, pat, rep) == s[..k] + rep + s[k + |pat|..];
  }

  /** One match of the mermaid-block pattern: the whole block and the code between its fences. */
  datatype MermaidMatch = MermaidMatch(full: string, code: string)

  datatype Diagram = Diagram(code: string, placeholder: string)

  function DiagramPlaceholder(i: nat): string
  {
    "<mermaid-diagram-" + NatToString(i) + "></mermaid-diagram-" + NatToString(i) + ">"
  }

  /** The content after the blocks of `matches` have each been replaced by their placeholder, in order. */
  function Cleaned(content: string, matches: seq<MermaidMatch>): string
  {
    if matches == [] then content
    else
      var n := |matches| - 1;
      ReplaceFirst(Cleaned(content, matches[..n]), matches[n].full, DiagramPlaceholder(n))
  }

  /** The diagram recorded for the i-th block: its trimmed code and placeholder i. */
  function DiagramOf(m: MermaidMatch, i: nat): Diagram
  {
    Diagram(Trim(m.code), DiagramPlaceholder(i))
  }

  /** The diagrams collected from `matches`, in order. */
  function Diagrams(matches: seq<MermaidMatch>): seq<Diagram>
  {
    if matches == [] then []
    else
      var n := |matches| - 1;
      Diagrams(matches[..n]) + [DiagramOf(matches[n], n)]
  }

  /** One diagram per block, in order: the i-th holds the block's trimmed code and placeholder i. */
  lemma {:induction false} DiagramsNumbered(matches: seq<MermaidMatch>)
    ensures |Diagrams(matches)| == |matches|
    ensures forall i :: 0 <= i < |matches| ==>
              Diagrams(matches)[i] == DiagramOf(matches[i], i)
  {
    if matches != [] {
      var n := |matches| - 1;
      var prefix := Diagrams(matches[..n]);
      DiagramsNumbered(matches[..n]);
      assert Diagrams(matches) == prefix + [DiagramOf(matches[n], n)];
      forall i | 0 <= i < n
        ensures Diagrams(matches)[i] == DiagramOf(matches[i], i)
      {
        assert Diagrams(matches)[i] == prefix[i];
        assert matches[..n][i] == matches[i];
      }
    }
  }

  /** Taking one more block replaces its first occurrence and records one more diagram. */
  lemma ExtractStep(content: string, matches: seq<MermaidMatch>, index: nat)
    requires index < |matches|
    ensures Cleaned(content, matches[..index + 1])
              == ReplaceFirst(Cleaned(content, matches[..index]), matches[index].full, DiagramPlaceholder(index))
    ensures Diagrams(matches[..index + 1]) == Diagrams(matches[..index]) + [DiagramOf(matches[index], index)]
  {
    assert matches[..index + 1][..index] == matches[..index];
  }

  /** extractAndRemoveMermaidBlocks over the matches of the pattern in the original content. */
  method ExtractAndRemoveMermaidBlocks(content: string, matches: seq<MermaidMatch>)
    returns (cleanContent: string, diagrams: seq<Diagram>)
    ensures cleanContent == Cleaned(content, matches)
    ensures diagrams == Diagrams(matches)
  {
    cleanContent := content;
    diagrams := [];
    var index := 0;
    while index < |matches|
      invariant index <= |matches|
      invariant cleanContent == Cleaned(content, matches[..index])
      invariant diagrams == Diagrams(matches[..index])
    {
      var fullMatch := matches[index].full;
      var code := Trim(matches[index].code);
      var placeholder := DiagramPlaceholder(index);
      ExtractStep(content, matches, index);
      cleanContent := ReplaceFirst(cleanContent, fullMatch, placeholder);
      diagrams := diagrams + [Diagram(code, placeholder)];
      index := index + 1;
    }
    assert matches[..index] == matches;
  }

  // ---- processImgGenTags ----

  /** The content cut at the matches of the tag pattern: plain text, and whole tags with their prompt. */
  datatype Piece = Plain(text: string) | Tag(raw: string, prompt: string)

  datatype ImageTag = ImageTag(prompt: string, index: nat, raw: string)

  datatype Processed = Processed(content: string, tags: seq<ImageTag>)

  function Source(pieces: seq<Piece>): string
  {
    if pieces == [] then ""
    else
      var last := pieces[|pieces| - 1];
      Source(pieces[..|pieces| - 1]) + (if last.Plain? then last.text else last.raw)
  }

  function ImageMarker(k: nat): string
  {
    "__IMAGE_" + NatToString(k) + "__"
  }

  /** The trimmed prompts that are not empty, in order: the prompts that get an image. */
  function Prompts(pieces: seq<Piece>): seq<string>
  {
    if pieces == [] then []
    else
      var last := pieces[|pieces| - 1];
      Prompts(pieces[..|pieces| - 1]) + (if last.Tag? && Trim(last.prompt) != "" then [Trim(last.prompt)] else [])
  }

  /** The replace callback run over every piece: tags with a prompt become numbered markers, empty ones vanish. */
  function Replaced(pieces: seq<Piece>): (r: Processed)
    ensures |r.tags| == |Prompts(pieces)|
    ensures forall k :: 0 <= k < |r.tags| ==> r.tags[k].index == k && r.tags[k].prompt == Prompts(pieces)[k]
  {
    if pieces == [] then Processed("", [])
    else
      var prev := Replaced(pieces[..|pieces| - 1]);
      match pieces[|pieces| - 1]
      case Plain(text) => Processed(prev.content + text, prev.tags)
      case Tag(raw, prompt) =>
        if Trim(prompt) != "" then
          Processed(prev.content + ImageMarker(|prev.tags|), prev.tags + [ImageTag(Trim(prompt), |prev.tags|, raw)])
        else prev
  }

  /** The plain text between the tags, with every tag deleted. */
  function PlainText(pieces: seq<Piece>): string
  {
    if pieces == [] then ""
    else
      var last := pieces[|pieces| - 1];
      PlainText(pieces[..|pieces| - 1]) + (if last.Plain? then last.text else "")
  }

  /** What the callback made of the first `j` pieces stays at the front of the whole result. */
  lemma {:induction false} ReplacedPrefix(pieces: seq<Piece>, j: nat)
    requires j <= |pieces|
    ensures var part := Replaced(pieces[..j]);
            StartsWith(Replaced(pieces).content, part.content)
            && |part.tags| <= |Replaced(pieces).tags| && Replaced(pieces).tags[..|part.tags|] == part.tags
    decreases |pieces| - j
  {
    if j == |pieces| {
      assert pieces[..j] == pieces;
    } else {
      var init := pieces[..|pieces| - 1];
      assert init[..j] == pieces[..j];
      ReplacedPrefix(init, j);
      var part, prev, whole := Replaced(pieces[..j]), Replaced(init), Replaced(pieces);
      assert whole.content[..|prev.content|] == prev.content;
      assert whole.content[..|part.content|] == prev.content[..|part.content|];
      assert whole.tags[..|prev.tags|] == prev.tags;
      assert whole.tags[..|part.tags|] == prev.tags[..|part.tags|];
    }
  }

  /**
   * A tag with a prompt becomes the marker of its number where the tag stood: the output
   * starts with the rendering of the pieces before it followed by `__IMAGE_k__`, where `k`
   * counts the prompted tags before it, and the k-th recorded tag is this one.
   */
  lemma MarkerAtTag(pieces: seq<Piece>, j: nat)
    requires j < |pieces| && pieces[j].Tag? && Trim(pieces[j].prompt) != ""
    ensures var k := |Prompts(pieces[..j])|;
            k < |Replaced(pieces).tags|
            && StartsWith(Replaced(pieces).content, Replaced(pieces[..j]).content + ImageMarker(k))
            && Replaced(pieces).tags[k] == ImageTag(Trim(pieces[j].prompt), k, pieces[j].raw)
  {
    ReplacedPrefix(pieces, j + 1);
    assert pieces[..j + 1][..j] == pieces[..j];
    assert pieces[..j + 1][j] == pieces[j];
  }

  /** A plain piece is copied where it stood, after the rendering of the pieces before it. */
  lemma PlainAtPiece(pieces: seq<Piece>, j: nat)
    requires j < |pieces| && pieces[j].Plain?
    ensures StartsWith(Replaced(pieces).content, Replaced(pieces[..j]).content + pieces[j].text)
  {
    ReplacedPrefix(pieces, j + 1);
    assert pieces[..j + 1][..j] == pieces[..j];
    assert pieces[..j + 1][j] == pieces[j];
  }

  /** A tag whose prompt is blank is deleted without using up a number. */
  lemma BlankTagVanishes(pieces: seq<Piece>, j: nat)
    requires j < |pieces| && pieces[j].Tag? && Trim(pieces[j].prompt) == ""
    ensures Replaced(pieces[..j + 1]) == Replaced(pieces[..j])
  {
    assert pieces[..j + 1][..j] == pieces[..j];
    assert pieces[..j + 1][j] == pieces[j];
  }

  /** Without a prompted tag the output is the plain text alone: every tag is deleted. */
  lemma {:induction false} NoPromptsPlainText(pieces: seq<Piece>)
    requires Prompts(pieces) == []
    ensures Replaced(pieces) == Processed(PlainText(pieces), [])
  {
    if pieces != [] {
      var init := pieces[..|pieces| - 1];
      assert Prompts(init) == [];
      NoPromptsPlainText(init);
    }
  }

  /** A short text holding an opening tag but no closing one: a tag still arriving. */
  predicate PartialTag(content: string)
  {
    JsLength(content) < 100 && (Contains(content, "<img_gen") || Contains(content, "< img_gen"))
    && !Contains(content, "</img_gen") && !Contains(content, "< /img_gen")
  }

  /** processImgGenTags as a function of the content and its cut into pieces. */
  function ProcessImgGenTagsSpec(content: string, pieces: seq<Piece>): (r: Processed)
    ensures PartialTag(content) || Contains(content, "__IMAGE_") ==> r == Processed(content, [])
    ensures !PartialTag(content) && !Contains(content, "__IMAGE_") ==>
              |r.tags| == |Prompts(pieces)| &&
              forall k :: 0 <= k < |r.tags| ==> r.tags[k].index == k && r.tags[k].prompt == Prompts(pieces)[k]
  {
    if PartialTag(content) then Processed(content, [])
    else if Contains(content, "__IMAGE_") then Processed(content, [])
    else Replaced(pieces)
  }

  /** processImgGenTags: the two early returns, then the replace callback bumping its counter. */
  method ProcessImgGenTags(content: string, pieces: seq<Piece>) returns (r: Processed)
    requires Source(pieces) == content
    ensures r == ProcessImgGenTagsSpec(content, pieces)
  {
    if PartialTag(content) {
      return Processed(content, []);
    }
    if Contains(content, "__IMAGE_") {
      return Processed(content, []);
    }
    var processed := "";
    var tags: seq<ImageTag> := [];
    var matchCount := 0;
    for i := 0 to |pieces|
      invariant Processed(processed, tags) == Replaced(pieces[..i])
      invariant matchCount == |tags|
    {
      assert pieces[..i + 1][..i] == pieces[..i];
      match pieces[i] {
        case Plain(text) =>
          processed := processed + text;
        case Tag(raw, prompt) =>
          var trimmedPrompt := Trim(prompt);
          if trimmedPrompt != "" {
            tags := tags + [ImageTag(trimmedPrompt, matchCount, raw)];
            processed := processed + ImageMarker(matchCount);
            matchCount := matchCount + 1;
          }
      }
    }
    assert pieces[..|pieces|] == pieces;
    return Processed(processed, tags);
  }

  lemma MarkerContains(k: nat)
    ensures Contains(ImageMarker(k), "__IMAGE_")
  {
    var m := ImageMarker(k);
    assert m[0..][..8] == "__IMAGE_";
  }

  lemma {:induction false} ReplacedHasMarker(pieces: seq<Piece>)
    requires Replaced(pieces).tags != []
    ensures Contains(Replaced(pieces).content, "__IMAGE_")
  {
    var prev := Replaced(pieces[..|pieces| - 1]);
    match pieces[|pieces| - 1]
    case Plain(text) =>
      ReplacedHasMarker(pieces[..|pieces| - 1]);
      ContainsAppendRight(prev.content, text, "__IMAGE_");
    case Tag(raw, prompt) =>
      if Trim(prompt) != "" {
        MarkerContains(|prev.tags|);
        ContainsAppendLeft(prev.content, ImageMarker(|prev.tags|), "__IMAGE_");
      } else {
        ReplacedHasMarker(pieces[..|pieces| - 1]);
      }
  }

  /**
   * Processing is idempotent: once a pass has numbered at least one image, a second pass over
   * its output, however that output is cut, returns it unchanged with no tags.
   */
  lemma ProcessTwice(content: string, pieces: seq<Piece>, again: seq<Piece>)
    requires ProcessImgGenTagsSpec(content, pieces).tags != []
    ensures var out := ProcessImgGenTagsSpec(content, pieces).content;
            ProcessImgGenTagsSpec(out, again) == Processed(out, [])
  {
    ReplacedHasMarker(pieces);
  }

  // ---- isStreamingChunk ----

  /** `/\.\s|\.\n/`: a full stop followed by white space. */
  predicate HasSentenceEnd(s: string)
  {
    exists i :: 0 <= i < |s| - 1 && s[i] == '.' && IsJsSpace(s[i + 1])
  }

  /** The guess that a message is a fragment of a reply still streaming in; lengths in UTF-16 code units. */
  function IsStreamingChunk(content: string): (r: bool)
    ensures JsLength(content) <= 2 ==> r
    ensures JsLength(content) >= 300 ==> !r
    ensures JsLength(content) > 2 && (Contains(content, "```") || Contains(content, "\n\n")) ==> !r
  {
    if JsLength(content) <= 2 then true
    else
      && JsLength(content) > 0
      && JsLength(content) < 300
      && (!HasSentenceEnd(content) || ' ' !in content)
      && !Contains(content, "```")
      && !Contains(content, "<img_gen")
      && !Contains(content, "\n\n")
  }
}
