// The chunk splitters behind the simulated streaming of a markdown reply: a plain splitter
// that prefers to break after spaces and punctuation, and a structure-aware splitter that
// keeps code blocks, headers and lists on their own chunks.
module MarkdownChunks {
  import opened Text

  function Min(a: int, b: int): int { if a <= b then a else b }

  /** `Math.ceil(len / numChunks)`; a zero count divides to Infinity, which behaves like the whole length. */
  function ChunkSize(len: nat, numChunks: nat): (cs: nat)
    ensures numChunks > 0 ==> cs * numChunks >= len && (cs == 0 || (cs - 1) * numChunks < len)
    ensures len > 0 ==> cs >= 1
  {
    if numChunks == 0 then len else (len + numChunks - 1) / numChunks
  }

  /** The characters a break point may sit just after. */
  predicate IsBreakChar(c: char)
  {
    c in [' ', '.', ',', ':', ';', '!', '?', '\n']
  }

  /** The backward search: at most 20 steps, stopping just after a break character or at the chunk start. */
  function BackOff(text: string, start: nat, bp: nat, steps: nat): (r: nat)
    requires start <= bp <= |text| && steps <= 20
    ensures start <= r <= bp && bp - r <= 20 - steps
    ensures forall q :: r <= q < bp ==> !IsBreakChar(text[q])
    ensures r > start && r + (20 - steps) > bp ==> IsBreakChar(text[r - 1])
    decreases 20 - steps
  {
    if steps < 20 && bp > start then
      if IsBreakChar(text[bp - 1]) then bp else BackOff(text, start, bp - 1, steps + 1)
    else bp
  }

  /** True when a break at `bp` would cut a word: neither side of it is a space. */
  predicate MidWord(text: string, bp: nat)
    requires 0 < bp < |text|
  {
    text[bp] != ' ' && text[bp - 1] != ' '
  }

  /**
   * Where the chunk that starts at `start` ends: at its target length except when the target
   * falls mid-word; then the end moves back at most 20 characters, over no break character,
   * and lands just after one unless the 20 steps run out; reaching the chunk start reverts
   * to the target. A break character within reach always moves the end back past it.
   */
  function BreakPoint(text: string, start: nat, cs: nat): (r: nat)
    requires start < |text| && cs >= 1
    ensures start < r <= Min(start + cs, |text|)
    ensures var target := Min(start + cs, |text|);
            && (r != target ==> target < |text| && MidWord(text, target))
            && (r != target ==> target - 20 <= r)
            && (r != target ==> forall q :: r <= q < target ==> !IsBreakChar(text[q]))
            && (r != target ==> IsBreakChar(text[r - 1]) || r == target - 20)
    ensures var target := Min(start + cs, |text|);
            target < |text| && MidWord(text, target) ==>
              forall q :: start <= q < target && target - 20 <= q && IsBreakChar(text[q]) ==> q < r
  {
    var target := Min(start + cs, |text|);
    if target < |text| && text[target] != ' ' && text[target - 1] != ' ' then
      var bp := BackOff(text, start, target, 0);
      if bp <= start then target else bp
    else target
  }

  /** The chunks of text[start..]. */
  function ChunksFrom(text: string, start: nat, cs: nat): seq<string>
    requires start <= |text| && (start < |text| ==> cs >= 1)
    decreases |text| - start
  {
    if start < |text| then
      var bp := BreakPoint(text, start, cs);
      [text[start..bp]] + ChunksFrom(text, bp, cs)
    else []
  }

  /** splitTextIntoChunks as a function of its inputs. */
  function SplitText(text: string, numChunks: nat): (r: seq<string>)
    ensures r == [] <==> text == ""
  {
    ChunksFrom(text, 0, ChunkSize(|text|, numChunks))
  }

  /** One round of splitTextIntoChunks: the target end, moved back to a break when it falls mid-word. */
  method FindBreakPoint(text: string, currentIndex: nat, chunkSize: nat) returns (breakPoint: nat)
    requires currentIndex < |text| && chunkSize >= 1
    ensures breakPoint == BreakPoint(text, currentIndex, chunkSize)
  {
    breakPoint := Min(currentIndex + chunkSize, |text|);
    if breakPoint < |text| && text[breakPoint] != ' ' && text[breakPoint - 1] != ' ' {
      ghost var target := breakPoint;
      var i := 0;
      while i < 20 && breakPoint > currentIndex
        invariant i <= 20 && currentIndex <= breakPoint <= target
        invariant BackOff(text, currentIndex, breakPoint, i) == BackOff(text, currentIndex, target, 0)
        decreases 20 - i
      {
        if IsBreakChar(text[breakPoint - 1]) {
          break;
        }
        breakPoint := breakPoint - 1;
        i := i + 1;
      }
      if breakPoint <= currentIndex {
        breakPoint := Min(currentIndex + chunkSize, |text|);
      }
    }
  }

  /** splitTextIntoChunks: cut, push and advance until the text is used up. */
  method SplitTextIntoChunks(text: string, numChunks: nat) returns (chunks: seq<string>)
    ensures chunks == SplitText(text, numChunks)
  {
    chunks := [];
    var chunkSize := ChunkSize(|text|, numChunks);
    var currentIndex := 0;
    while currentIndex < |text|
      invariant currentIndex <= |text|
      invariant chunks + ChunksFrom(text, currentIndex, chunkSize) == SplitText(text, numChunks)
      decreases |text| - currentIndex
    {
      var breakPoint := FindBreakPoint(text, currentIndex, chunkSize);
      chunks := chunks + [text[currentIndex..breakPoint]];
      currentIndex := breakPoint;
    }
  }

  /** Splitting loses and adds nothing: the chunks concatenate to the text they came from. */
  lemma {:induction false} ChunksFromConcat(text: string, start: nat, cs: nat)
    requires start <= |text| && (start < |text| ==> cs >= 1)
    ensures Concat(ChunksFrom(text, start, cs)) == text[start..]
    decreases |text| - start
  {
    if start < |text| {
      var bp := BreakPoint(text, start, cs);
      ChunksFromConcat(text, bp, cs);
      assert text[start..] == text[start..bp] + text[bp..];
    }
  }

  /** Every chunk holds at least one and at most cs characters. */
  lemma {:induction false} ChunksFromSizes(text: string, start: nat, cs: nat)
    requires start <= |text| && (start < |text| ==> cs >= 1)
    ensures forall k :: 0 <= k < |ChunksFrom(text, start, cs)| ==> 0 < |ChunksFrom(text, start, cs)[k]| <= cs
    decreases |text| - start
  {
    if start < |text| {
      var bp := BreakPoint(text, start, cs);
      ChunksFromSizes(text, bp, cs);
    }
  }

  lemma SplitTextConcat(text: string, numChunks: nat)
    ensures Concat(SplitText(text, numChunks)) == text
  {
    ChunksFromConcat(text, 0, ChunkSize(|text|, numChunks));
  }

  /** With at least one chunk asked for, every chunk is non-empty and at most ceil(len/numChunks) long. */
  lemma SplitTextSizes(text: string, numChunks: nat)
    requires numChunks >= 1
    ensures forall k :: 0 <= k < |SplitText(text, numChunks)| ==>
              0 < |SplitText(text, numChunks)[k]| <= ChunkSize(|text|, numChunks)
  {
    ChunksFromSizes(text, 0, ChunkSize(|text|, numChunks));
  }

  /** The kinds of element the structure-aware splitter recognises. */
  datatype ElementKind = CodeBlock | Header | List | NumberedList | Blockquote | Table

  /** A regular-expression match: its kind, the matched text and where it starts. */
  datatype Match = Match(kind: ElementKind, content: string, index: nat)

  predicate SortedByIndex(ms: seq<Match>)
  {
    forall i, j :: 0 <= i < j < |ms| ==> ms[i].index <= ms[j].index
  }

  predicate Blank(s: string)
  {
    Trim(s) == ""
  }

  /** `chunks.filter(chunk => chunk.trim().length > 0)`. */
  function DropBlank(chunks: seq<string>): (r: seq<string>)
    ensures forall k :: 0 <= k < |r| ==> !Blank(r[k])
    ensures forall c :: c in r <==> c in chunks && !Blank(c)
  {
    if chunks == [] then []
    else
      var rest := DropBlank(chunks[1..]);
      assert chunks == [chunks[0]] + chunks[1..];
      if Blank(chunks[0]) then rest else [chunks[0]] + rest
  }

  /** `str.slice(1, -1)` on a list of lines. */
  function Inner(lines: seq<string>): seq<string>
  {
    if |lines| <= 2 then [] else lines[1..|lines| - 1]
  }

  /** `Math.ceil(len / (chunkLength * 0.8))`, taken over the rationals. */
  function CodeChunkCount(len: nat, chunkLength: nat): nat
    requires chunkLength >= 1
  {
    (5 * len + 4 * chunkLength - 1) / (4 * chunkLength)
  }

  /**
   * splitMarkdownIntoChunks over the sorted list of special-element matches. Short texts and
   * texts without special elements go to the plain splitter; otherwise the text around and
   * including each element is cut as the element's kind asks, and blank chunks are dropped.
   */
  method SplitMarkdownIntoChunks(markdown: string, numChunks: nat, matches: seq<Match>) returns (result: seq<string>)
    requires numChunks >= 1
    requires SortedByIndex(matches)
    requires forall m :: m in matches ==> m.index + |m.content| <= |markdown|
    ensures (matches == [] || JsLength(markdown) < 100) ==> result == SplitText(markdown, numChunks)
    ensures !(matches == [] || JsLength(markdown) < 100) ==> forall k :: 0 <= k < |result| ==> !Blank(result[k])
  {
    if matches == [] || JsLength(markdown) < 100 {
      result := SplitTextIntoChunks(markdown, numChunks);
      return;
    }
    var chunks: seq<string> := [];
    var lastIndex: nat := 0;
    var currentChunk := "";
    var chunkLength := ChunkSize(|markdown|, numChunks);
    for m := 0 to |matches|
      invariant lastIndex <= |markdown|
      invariant m == 0 ==> lastIndex == 0
      invariant m > 0 ==> lastIndex == matches[m - 1].index + |matches[m - 1].content|
    {
      var elem := matches[m];
      assert elem in matches;
      if elem.index > lastIndex {
        var textBefore := markdown[lastIndex..elem.index];
        if |textBefore| > chunkLength {
          var textChunks := SplitTextIntoChunks(textBefore, ChunkSize(|textBefore|, chunkLength));
          chunks := chunks + textChunks;
        } else {
          currentChunk := currentChunk + textBefore;
          if |currentChunk| >= chunkLength {
            chunks := chunks + [currentChunk];
            currentChunk := "";
          }
        }
      }
      if elem.kind == CodeBlock {
        var codeLines := Split(elem.content, '\n');
        currentChunk := currentChunk + codeLines[0] + "\n";
        chunks := chunks + [currentChunk];
        currentChunk := "";
        var codeContent := Join(Inner(codeLines), '\n');
        var codeChunks := SplitTextIntoChunks(codeContent, CodeChunkCount(|codeContent|, chunkLength));
        chunks := chunks + codeChunks;
        chunks := chunks + [codeLines[|codeLines| - 1]];
      } else if elem.kind == Header || elem.kind == List || elem.kind == NumberedList {
        var lines := Split(elem.content, '\n');
        currentChunk := currentChunk + lines[0];
        chunks := chunks + [currentChunk];
        currentChunk := "";
        chunks := chunks + lines[1..];
      } else {
        if |elem.content| > chunkLength {
          var elementChunks := SplitTextIntoChunks(elem.content, ChunkSize(|elem.content|, chunkLength));
          chunks := chunks + elementChunks;
        } else {
          currentChunk := currentChunk + elem.content;
          chunks := chunks + [currentChunk];
          currentChunk := "";
        }
      }
      lastIndex := elem.index + |elem.content|;
    }
    if lastIndex < |markdown| {
      var remainingText := markdown[lastIndex..];
      if |remainingText| > chunkLength {
        var remainingChunks := SplitTextIntoChunks(remainingText, ChunkSize(|remainingText|, chunkLength));
        chunks := chunks + remainingChunks;
      } else if !Blank(remainingText) {
        chunks := chunks + [remainingText];
      }
    }
    if !Blank(currentChunk) {
      chunks := chunks + [currentChunk];
    }
    result := DropBlank(chunks);
  }
}
