// The syntax repairs tried on a mermaid chart the renderer rejected: quoting node labels,
// closing up spaced arrows, and the aggressive pass that quotes every label and flattens
// the chart onto one line.
module MermaidRepair {
  import opened Wrappers
  import opened Text

  /** The characters `.` in a regular expression does not match. */
  predicate IsLineTerminator(c: char)
  {
    c == '\n' || c == '\r' || c == '\U{2028}' || c == '\U{2029}'
  }

  /** A match of `/(\w+)\[(.*?)]/`: where it starts, the node id and the label between the brackets. */
  datatype NodeMatch = NodeMatch(start: nat, id: string, text: string)

  function Whole(m: NodeMatch): string
  {
    m.id + "[" + m.text + "]"
  }

  function End(m: NodeMatch): nat
  {
    m.start + |Whole(m)|
  }

  /** The end of the run of word characters starting at `p`. */
  function WordRunEnd(line: string, p: nat): (q: nat)
    requires p <= |line|
    ensures p <= q <= |line|
    ensures forall k :: p <= k < q ==> IsWordChar(line[k])
    ensures q < |line| ==> !IsWordChar(line[q])
    decreases |line| - p
  {
    if p < |line| && IsWordChar(line[p]) then WordRunEnd(line, p + 1) else p
  }

  /** The first ']' at or after `p`. */
  function CloseAt(line: string, p: nat): (r: Option<nat>)
    requires p <= |line|
    ensures r.Some? ==> p <= r.value < |line| && line[r.value] == ']' && ']' !in line[p..r.value]
    ensures r.None? ==> ']' !in line[p..]
    decreases |line| - p
  {
    if p == |line| then None
    else if line[p] == ']' then Some(p)
    else
      var r := CloseAt(line, p + 1);
      assert line[p..] == [line[p]] + line[p + 1..];
      r
  }

  /**
   * The match that starts exactly at `p`: the greedy word run must be followed by '[' and the
   * lazy label ends at the first ']'; a line terminator before that ']' means no match.
   */
  function NodeAt(line: string, p: nat): (r: Option<NodeMatch>)
    requires p <= |line|
    ensures r.Some? ==> r.value.start == p && End(r.value) <= |line| && line[p..End(r.value)] == Whole(r.value)
    ensures r.Some? ==> |r.value.id| > 0 && (forall k :: 0 <= k < |r.value.id| ==> IsWordChar(r.value.id[k]))
    ensures r.Some? ==> ']' !in r.value.text && (forall k :: 0 <= k < |r.value.text| ==> !IsLineTerminator(r.value.text[k]))
  {
    var q := WordRunEnd(line, p);
    if q > p && q < |line| && line[q] == '[' then
      match CloseAt(line, q + 1)
      case None => None
      case Some(k) =>
        var text := line[q + 1..k];
        if exists i :: 0 <= i < |text| && IsLineTerminator(text[i]) then None
        else
          var m := NodeMatch(p, line[p..q], text);
          assert line[p..k + 1] == line[p..q] + "[" + text + "]";
          Some(m)
    else None
  }

  /** The leftmost match at or after `from`, as the `exec` loop with its `lastIndex` finds it. */
  function NextNode(line: string, from: nat): (r: Option<NodeMatch>)
    requires from <= |line|
    ensures r.Some? ==> from <= r.value.start < End(r.value) <= |line| && r == NodeAt(line, r.value.start)
    ensures r.Some? ==> forall p :: from <= p < r.value.start ==> NodeAt(line, p).None?
    ensures r.None? ==> forall p :: from <= p <= |line| ==> NodeAt(line, p).None?
    decreases |line| - from
  {
    match NodeAt(line, from)
    case Some(m) => Some(m)
    case None => if from == |line| then None else NextNode(line, from + 1)
  }

  /** Node shape: a non-empty word-character id, '[', a label without ']' or line terminator, ']'. */
  predicate IsNode(m: NodeMatch)
  {
    |m.id| > 0 && AllOf(m.id, IsWordChar) && ']' !in m.text
    && forall k :: 0 <= k < |m.text| ==> !IsLineTerminator(m.text[k])
  }

  /** Conversely, a node written at `p` is the match found there, with that id and label. */
  lemma NodeAtFinds(line: string, m: NodeMatch)
    requires IsNode(m) && End(m) <= |line| && line[m.start..End(m)] == Whole(m)
    ensures NodeAt(line, m.start) == Some(m)
  {
    var p, n := m.start, |m.id|;
    var open, close := p + n, p + n + 1 + |m.text|;
    NodeLayout(line, m);
    WordRunEndAt(line, p, open);
    CloseAtAt(line, open + 1, close);
    assert line[p..close + 1] == line[p..open] + "[" + line[open + 1..close] + "]";
  }

  /** Where the id, the brackets and the label of a node written at `m.start` sit in the line. */
  lemma NodeLayout(line: string, m: NodeMatch)
    requires IsNode(m) && End(m) <= |line| && line[m.start..End(m)] == Whole(m)
    ensures var p, n := m.start, |m.id|;
            && End(m) == p + n + 2 + |m.text|
            && line[p + n] == '[' && line[p + n + 1 + |m.text|] == ']'
            && line[p..p + n] == m.id && line[p + n + 1..p + n + 1 + |m.text|] == m.text
  {
    var p, n := m.start, |m.id|;
    var w := line[p..End(m)];
    var t := |m.text|;
    assert w == m.id + "[" + m.text + "]";
    assert w[..n] == m.id && w[n] == '[' && w[n + 1..n + 1 + t] == m.text && w[n + 1 + t] == ']';
    assert line[p + n] == w[n];
    assert line[p + n + 1 + t] == w[n + 1 + t];
    assert line[p..p + n] == w[..n];
    forall k | 0 <= k < t
      ensures line[p + n + 1 + k] == m.text[k]
    {
      assert line[p + n + 1 + k] == w[n + 1 + k] == w[n + 1..n + 1 + t][k];
    }
  }

  /** The word run from `p` ends at the first character that is not a word character. */
  lemma WordRunEndAt(line: string, p: nat, q: nat)
    requires p <= q < |line| && !IsWordChar(line[q])
    requires forall k :: p <= k < q ==> IsWordChar(line[k])
    ensures WordRunEnd(line, p) == q
  {
  }

  /** The closing bracket search from `p` stops at the first ']'. */
  lemma CloseAtAt(line: string, p: nat, c: nat)
    requires p <= c < |line| && line[c] == ']' && ']' !in line[p..c]
    ensures CloseAt(line, p) == Some(c)
  {
  }

  /** The characters that follow `$` in the replacement patterns a replace without capture groups expands. */
  predicate IsSubstitutionChar(c: char)
  {
    c == '$' || c == '&' || c == '`' || c == '\''
  }

  /**
   * The text one match is replaced by when the pattern has no capture groups: `$$` becomes a
   * dollar sign, `$&` the match, `` $` `` the text before the match and `$'` the text after
   * it; every other character, a `$` before anything else included, is kept.
   */
  function Substitute(rep: string, matched: string, before: string, after: string): string
    decreases |rep|
  {
    if rep == [] then []
    else if |rep| >= 2 && rep[0] == '$' && IsSubstitutionChar(rep[1]) then
      Pattern(rep[1], matched, before, after) + Substitute(rep[2..], matched, before, after)
    else [rep[0]] + Substitute(rep[1..], matched, before, after)
  }

  /** What `$c` stands for: `$$` a dollar sign, `$&` the match, `` $` `` the text before it, `$'` the text after it. */
  function Pattern(c: char, matched: string, before: string, after: string): string
  {
    if c == '$' then "$" else if c == '&' then matched else if c == '`' then before else after
  }

  /** A replacement without a dollar sign is inserted as it is. */
  lemma {:induction false} SubstituteLiteral(rep: string, matched: string, before: string, after: string)
    requires '$' !in rep
    ensures Substitute(rep, matched, before, after) == rep
    decreases |rep|
  {
    if rep != [] {
      assert rep[0] != '$';
      assert '$' !in rep[1..];
      SubstituteLiteral(rep[1..], matched, before, after);
    }
  }

  /** Two replacement texts expand separately unless a `$` at the end of the first pairs with the second. */
  lemma {:induction false} SubstituteAppend(x: string, y: string, matched: string, before: string, after: string)
    requires x == [] || x[|x| - 1] != '$' || y == [] || !IsSubstitutionChar(y[0])
    ensures Substitute(x + y, matched, before, after)
            == Substitute(x, matched, before, after) + Substitute(y, matched, before, after)
    decreases |x|
  {
    if x == [] {
      assert x + y == y;
    } else if |x| >= 2 && x[0] == '$' && IsSubstitutionChar(x[1]) {
      SubstituteAppend(x[2..], y, matched, before, after);
      AppendPatternStep(x, y, matched, before, after);
    } else {
      if |x| >= 2 {
        assert x[1..][|x| - 2] == x[|x| - 1];
      }
      SubstituteAppend(x[1..], y, matched, before, after);
      AppendCharStep(x, y, matched, before, after);
    }
  }

  /** The step of SubstituteAppend past a `$` pattern at the head of `x`. */
  lemma AppendPatternStep(x: string, y: string, matched: string, before: string, after: string)
    requires |x| >= 2 && x[0] == '$' && IsSubstitutionChar(x[1])
    requires Substitute(x[2..] + y, matched, before, after)
             == Substitute(x[2..], matched, before, after) + Substitute(y, matched, before, after)
    ensures Substitute(x + y, matched, before, after)
            == Substitute(x, matched, before, after) + Substitute(y, matched, before, after)
  {
    var x' := x[2..];
    assert x + y == ['$', x[1]] + (x' + y);
    assert x == ['$', x[1]] + x';
    ConsPattern(x[1], x' + y, matched, before, after);
    ConsPattern(x[1], x', matched, before, after);
    Regroup(Substitute(x + y, matched, before, after), Substitute(x, matched, before, after),
            Pattern(x[1], matched, before, after), Substitute(x', matched, before, after), Substitute(y, matched, before, after));
  }

  /** The step of SubstituteAppend past a copied character at the head of `x`. */
  lemma AppendCharStep(x: string, y: string, matched: string, before: string, after: string)
    requires x != [] && !(|x| >= 2 && x[0] == '$' && IsSubstitutionChar(x[1]))
    requires x[|x| - 1] != '$' || y == [] || !IsSubstitutionChar(y[0])
    requires Substitute(x[1..] + y, matched, before, after)
             == Substitute(x[1..], matched, before, after) + Substitute(y, matched, before, after)
    ensures Substitute(x + y, matched, before, after)
            == Substitute(x, matched, before, after) + Substitute(y, matched, before, after)
  {
    var x' := x[1..];
    assert x + y == [x[0]] + (x' + y);
    assert x == [x[0]] + x';
    if x' != [] {
      assert (x' + y)[0] == x[1];
    }
    ConsChar(x[0], x' + y, matched, before, after);
    ConsChar(x[0], x', matched, before, after);
    Regroup(Substitute(x + y, matched, before, after), Substitute(x, matched, before, after),
            [x[0]], Substitute(x', matched, before, after), Substitute(y, matched, before, after));
  }

  lemma Regroup(whole: string, left: string, a: string, b: string, c: string)
    requires whole == a + (b + c) && left == a + b
    ensures whole == left + c
  {
  }

  /** A `$` pattern at the head expands, and the rest is expanded after it. */
  lemma ConsPattern(c: char, u: string, matched: string, before: string, after: string)
    requires IsSubstitutionChar(c)
    ensures Substitute(['$', c] + u, matched, before, after)
            == Pattern(c, matched, before, after) + Substitute(u, matched, before, after)
  {
    assert (['$', c] + u)[2..] == u;
  }

  /** A character that does not open a `$` pattern is copied, and the rest is expanded after it. */
  lemma ConsChar(c: char, u: string, matched: string, before: string, after: string)
    requires !(c == '$' && u != [] && IsSubstitutionChar(u[0]))
    ensures Substitute([c] + u, matched, before, after) == [c] + Substitute(u, matched, before, after)
  {
    assert ([c] + u)[1..] == u;
  }

  lemma {:induction false} SubstituteNoNewline(rep: string, matched: string, before: string, after: string)
    requires '\n' !in rep && '\n' !in matched && '\n' !in before && '\n' !in after
    ensures '\n' !in Substitute(rep, matched, before, after)
    decreases |rep|
  {
    if |rep| >= 2 && rep[0] == '$' && IsSubstitutionChar(rep[1]) {
      assert forall c :: c in rep[2..] ==> c in rep;
      SubstituteNoNewline(rep[2..], matched, before, after);
    } else if rep != [] {
      assert forall c :: c in rep[1..] ==> c in rep;
      SubstituteNoNewline(rep[1..], matched, before, after);
    }
  }

  /**
   * The global replace over `rest`, the part of the text not yet scanned, with `before` the
   * part already scanned: occurrences of `pat` are found left to right without overlapping,
   * and each is replaced by `rep` expanded against the whole text around it.
   */
  function ReplaceIn(before: string, rest: string, pat: string, rep: string): string
    requires |pat| > 0
    decreases |rest|
  {
    if |rest| < |pat| then rest
    else if rest[..|pat|] == pat then
      Substitute(rep, pat, before, rest[|pat|..]) + ReplaceIn(before + pat, rest[|pat|..], pat, rep)
    else [rest[0]] + ReplaceIn(before + [rest[0]], rest[1..], pat, rep)
  }

  /**
   * `s.replace(new RegExp(<pat with its special characters escaped>, 'g'), rep)`: every
   * occurrence of the literal `pat`, left to right, is replaced by `rep` with its `$` patterns
   * expanded; text without `pat` is returned unchanged and no line feed is brought in.
   */
  function ReplaceAll(s: string, pat: string, rep: string): (r: string)
    requires |pat| > 0
    ensures !Contains(s, pat) ==> r == s
    ensures '\n' !in s && '\n' !in rep ==> '\n' !in r
  {
    ReplaceStart(s, pat, rep);
    ReplaceIn([], s, pat, rep)
  }

  lemma ReplaceStart(s: string, pat: string, rep: string)
    requires |pat| > 0
    ensures !Contains(s, pat) ==> ReplaceIn([], s, pat, rep) == s
    ensures '\n' !in s && '\n' !in rep ==> '\n' !in ReplaceIn([], s, pat, rep)
  {
    if !Contains(s, pat) {
      forall p | 0 <= p < |s|
        ensures !StartsWith((s + [])[p..], pat)
      {
        assert s + [] == s;
      }
      ReplaceInSkip([], s, [], pat, rep);
      assert s + [] == s;
    }
    if '\n' !in s && '\n' !in rep {
      ReplaceInNoNewline([], s, pat, rep);
    }
  }

  /** Where no occurrence starts inside `x`, `x` is copied and the scan goes on after it. */
  lemma {:induction false} ReplaceInSkip(before: string, x: string, rest: string, pat: string, rep: string)
    requires |pat| > 0
    requires forall p :: 0 <= p < |x| ==> !StartsWith((x + rest)[p..], pat)
    ensures ReplaceIn(before, x + rest, pat, rep) == x + ReplaceIn(before + x, rest, pat, rep)
    decreases |x|
  {
    var z := x + rest;
    if x == [] {
      assert z == rest && before + x == before;
    } else if |z| < |pat| {
      assert ReplaceIn(before, z, pat, rep) == z;
      assert ReplaceIn(before + x, rest, pat, rep) == rest;
    } else {
      var c, x' := x[0], x[1..];
      var tail := ReplaceIn(before + x, rest, pat, rep);
      assert !StartsWith(z, pat) by { assert z[0..] == z; }
      SkipTail(x, rest, pat);
      calc {
        ReplaceIn(before, z, pat, rep);
        { SkipStep(before, z, pat, rep); }
        [c] + ReplaceIn(before + [c], z[1..], pat, rep);
        { assert z[1..] == x' + rest; }
        [c] + ReplaceIn(before + [c], x' + rest, pat, rep);
        { ReplaceInSkip(before + [c], x', rest, pat, rep); assert before + [c] + x' == before + x; }
        [c] + (x' + tail);
        { assert [c] + x' == x; }
        x + tail;
      }
    }
  }

  /** A text that does not start with the pattern gives up its first character unchanged. */
  lemma SkipStep(before: string, z: string, pat: string, rep: string)
    requires 0 < |pat| <= |z| && !StartsWith(z, pat)
    ensures ReplaceIn(before, z, pat, rep) == [z[0]] + ReplaceIn(before + [z[0]], z[1..], pat, rep)
  {
  }

  lemma SkipTail(x: string, rest: string, pat: string)
    requires |x| > 0
    requires forall p :: 0 <= p < |x| ==> !StartsWith((x + rest)[p..], pat)
    ensures forall p :: 0 <= p < |x[1..]| ==> !StartsWith((x[1..] + rest)[p..], pat)
  {
    forall p | 0 <= p < |x[1..]|
      ensures !StartsWith((x[1..] + rest)[p..], pat)
    {
      assert (x[1..] + rest)[p..] == (x + rest)[p + 1..];
    }
  }

  lemma {:induction false} ReplaceInNoNewline(before: string, rest: string, pat: string, rep: string)
    requires |pat| > 0 && '\n' !in before && '\n' !in rest && '\n' !in rep
    ensures '\n' !in ReplaceIn(before, rest, pat, rep)
    decreases |rest|
  {
    if |rest| < |pat| {
    } else if rest[..|pat|] == pat {
      NoNewlineSplit(rest, |pat|);
      SubstituteNoNewline(rep, pat, before, rest[|pat|..]);
      ReplaceInNoNewline(before + pat, rest[|pat|..], pat, rep);
    } else {
      NoNewlineSplit(rest, 1);
      ReplaceInNoNewline(before + [rest[0]], rest[1..], pat, rep);
    }
  }

  lemma NoNewlineSplit(s: string, k: nat)
    requires k <= |s| && '\n' !in s
    ensures '\n' !in s[..k] && '\n' !in s[k..]
  {
    assert s == s[..k] + s[k..];
  }

  /**
   * The first occurrence is replaced where it stands: when `pat` does not occur before the
   * end of `a`, the text before it is kept and the occurrence becomes the expanded replacement,
   * with `a` as the text before the match and `b` as the text after it.
   */
  lemma ReplaceAllFirst(a: string, pat: string, b: string, rep: string)
    requires |pat| > 0 && !Contains(a + pat[..|pat| - 1], pat)
    ensures ReplaceAll(a + pat + b, pat, rep)
            == a + Substitute(rep, pat, a, b) + ReplaceIn(a + pat, b, pat, rep)
  {
    var s := a + pat + b;
    var prefix := a + pat[..|pat| - 1];
    forall p | 0 <= p < |a|
      ensures !StartsWith((a + (pat + b))[p..], pat)
    {
      assert a + (pat + b) == s;
      assert prefix[p..][..|pat|] == s[p..][..|pat|];
    }
    ReplaceInSkip([], a, pat + b, pat, rep);
    assert a + (pat + b) == s && [] + a == a;
    assert (pat + b)[..|pat|] == pat && (pat + b)[|pat|..] == b;
  }

  /** With a replacement free of `$`, what was scanned before does not matter. */
  lemma {:induction false} ReplaceInLiteral(b1: string, b2: string, rest: string, pat: string, rep: string)
    requires |pat| > 0 && '$' !in rep
    ensures ReplaceIn(b1, rest, pat, rep) == ReplaceIn(b2, rest, pat, rep)
    decreases |rest|
  {
    if |rest| < |pat| {
    } else if rest[..|pat|] == pat {
      SubstituteLiteral(rep, pat, b1, rest[|pat|..]);
      SubstituteLiteral(rep, pat, b2, rest[|pat|..]);
      ReplaceInLiteral(b1 + pat, b2 + pat, rest[|pat|..], pat, rep);
    } else {
      ReplaceInLiteral(b1 + [rest[0]], b2 + [rest[0]], rest[1..], pat, rep);
    }
  }

  /** With a replacement free of `$`, the first occurrence becomes `rep` and the rest is replaced in turn. */
  lemma ReplaceAllLiteral(a: string, pat: string, b: string, rep: string)
    requires |pat| > 0 && !Contains(a + pat[..|pat| - 1], pat) && '$' !in rep
    ensures ReplaceAll(a + pat + b, pat, rep) == a + rep + ReplaceAll(b, pat, rep)
  {
    ReplaceAllFirst(a, pat, b, rep);
    SubstituteLiteral(rep, pat, a, b);
    ReplaceInLiteral(a + pat, [], b, pat, rep);
  }

  /** A replace whose pattern is the whole text yields the expanded replacement alone. */
  lemma ReplaceWhole(s: string, rep: string)
    requires |s| > 0
    ensures ReplaceAll(s, s, rep) == Substitute(rep, s, "", "")
  {
    assert s[..|s|] == s && s[|s|..] == "";
    assert ReplaceIn([] + s, [], s, rep) == "";
  }


  /** `/[^a-zA-Z0-9\s]/.test(text)`: the label holds something other than letters, digits and spaces. */
  predicate HasSpecial(text: string)
  {
    exists k :: 0 <= k < |text| && !IsAsciiAlnum(text[k]) && !IsJsSpace(text[k])
  }

  /** `text.replace(/"/g, '\\"')`. */
  function EscapeQuotes(text: string): (r: string)
    ensures text != [] ==> r != [] && r[0] == (if text[0] == '"' then '\\' else text[0])
    ensures (forall k :: 0 <= k < |text| ==> text[k] != '\n') ==> '\n' !in r
  {
    if text == [] then []
    else (if text[0] == '"' then "\\\"" else [text[0]]) + EscapeQuotes(text[1..])
  }

  /** The two node-quoting passes: labels with special characters only, or every label. */
  datatype Quoting = SpecialLabels | AllLabels

  function Quoted(id: string, text: string): string
  {
    id + "[\"" + text + "\"]"
  }

  /**
   * What one node match does to the line built so far: the first pass leaves labels of
   * letters, digits and spaces alone, and a node no longer in the line changes nothing.
   */
  function QuoteNode(mode: Quoting, m: NodeMatch, acc: string): (r: string)
    ensures mode.SpecialLabels? && !HasSpecial(m.text) ==> r == acc
    ensures !Contains(acc, Whole(m)) ==> r == acc
  {
    match mode
    case SpecialLabels =>
      if HasSpecial(m.text) then ReplaceAll(acc, Whole(m), Quoted(m.id, m.text)) else acc
    case AllLabels =>
      var text := EscapeQuotes(m.text);
      if !StartsWith(text, "\"") || !EndsWith(text, "\"") then ReplaceAll(acc, Whole(m), Quoted(m.id, text)) else acc
  }

  /** The quoting loop from position `from` of the original line, with `acc` the line built so far. */
  function QuoteNodesFrom(mode: Quoting, line: string, from: nat, acc: string): string
    requires from <= |line|
    decreases |line| - from
  {
    match NextNode(line, from)
    case None => acc
    case Some(m) => QuoteNodesFrom(mode, line, End(m), QuoteNode(mode, m, acc))
  }

  /** The quoting pass over one line. */
  function QuoteNodes(mode: Quoting, line: string): string
  {
    QuoteNodesFrom(mode, line, 0, line)
  }

  /** The `exec` loop over the node matches of one line, rewriting the line as it goes. */
  method QuoteLineNodes(mode: Quoting, line: string) returns (fixedLine: string)
    ensures fixedLine == QuoteNodes(mode, line)
  {
    fixedLine := line;
    var from := 0;
    var next := NextNode(line, 0);
    while next.Some?
      invariant from <= |line| && next == NextNode(line, from)
      invariant QuoteNodesFrom(mode, line, from, fixedLine) == QuoteNodes(mode, line)
      decreases |line| - from
    {
      var m := next.value;
      match mode {
        case SpecialLabels =>
          if HasSpecial(m.text) {
            fixedLine := ReplaceAll(fixedLine, Whole(m), Quoted(m.id, m.text));
          }
        case AllLabels =>
          var nodeText := EscapeQuotes(m.text);
          if !StartsWith(nodeText, "\"") || !EndsWith(nodeText, "\"") {
            fixedLine := ReplaceAll(fixedLine, Whole(m), Quoted(m.id, nodeText));
          }
      }
      from := End(m);
      next := NextNode(line, from);
    }
  }

  /** In the quote-all pass the escaped label never starts with '"', so the quoting always happens. */
  lemma QuoteAllAlwaysQuotes(m: NodeMatch, acc: string)
    ensures QuoteNode(AllLabels, m, acc) == ReplaceAll(acc, Whole(m), Quoted(m.id, EscapeQuotes(m.text)))
  {
    var text := EscapeQuotes(m.text);
    if text != [] {
      assert text[0] != '"';
    }
  }

  /** A line that is one node: the quoting loop makes exactly one step, on that node. */
  lemma SingleNodeLine(mode: Quoting, m: NodeMatch, line: string)
    requires IsNode(m) && m.start == 0 && line == Whole(m)
    ensures QuoteNodes(mode, line) == QuoteNode(mode, m, line)
  {
    assert End(m) == |line|;
    assert line[0..End(m)] == line;
    NodeAtFinds(line, m);
    assert NextNode(line, 0) == Some(m);
    assert NextNode(line, |line|) == None by {
      assert WordRunEnd(line, |line|) == |line|;
    }
    assert QuoteNodesFrom(mode, line, 0, line) == QuoteNodesFrom(mode, line, |line|, QuoteNode(mode, m, line));
  }

  /**
   * The first pass on a line holding one node `id[t]` whose label has a special character:
   * the line becomes `id["t"]`, with the label put through the `$` expansion of the
   * replacement (the whole line being both the match and its only text).
   */
  lemma QuoteSpecialLine(id: string, t: string)
    requires |id| > 0 && AllOf(id, IsWordChar) && ']' !in t
    requires forall k :: 0 <= k < |t| ==> !IsLineTerminator(t[k])
    requires HasSpecial(t)
    ensures var line := id + "[" + t + "]";
            QuoteNodes(SpecialLabels, line) == id + "[\"" + Substitute(t, line, "", "") + "\"]"
  {
    var m := NodeMatch(0, id, t);
    var line := Whole(m);
    SingleNodeLine(SpecialLabels, m, line);
    ReplaceWhole(line, Quoted(id, t));
    QuotedExpansion(id, t, line);
  }

  /** With no `$` in the label, the first pass turns the one-node line `id[t]` into `id["t"]`. */
  lemma QuoteSpecialLiteral(id: string, t: string)
    requires |id| > 0 && AllOf(id, IsWordChar) && ']' !in t && '$' !in t
    requires forall k :: 0 <= k < |t| ==> !IsLineTerminator(t[k])
    requires HasSpecial(t)
    ensures QuoteNodes(SpecialLabels, id + "[" + t + "]") == id + "[\"" + t + "\"]"
  {
    QuoteSpecialLine(id, t);
    SubstituteLiteral(t, id + "[" + t + "]", "", "");
  }

  /**
   * The aggressive pass on a line holding one node `id[t]`: the line becomes `id["t'"]` with
   * `t'` the label with its quotes escaped and then put through the `$` expansion.
   */
  lemma QuoteAllLine(id: string, t: string)
    requires |id| > 0 && AllOf(id, IsWordChar) && ']' !in t
    requires forall k :: 0 <= k < |t| ==> !IsLineTerminator(t[k])
    ensures var line := id + "[" + t + "]";
            QuoteNodes(AllLabels, line) == id + "[\"" + Substitute(EscapeQuotes(t), line, "", "") + "\"]"
  {
    var m := NodeMatch(0, id, t);
    var line := Whole(m);
    SingleNodeLine(AllLabels, m, line);
    QuoteAllAlwaysQuotes(m, line);
    ReplaceWhole(line, Quoted(id, EscapeQuotes(t)));
    QuotedExpansion(id, EscapeQuotes(t), line);
  }

  /** Expanding `id["t"]` expands the label only: the id and the brackets hold no `$`. */
  lemma QuotedExpansion(id: string, t: string, line: string)
    requires AllOf(id, IsWordChar)
    ensures Substitute(Quoted(id, t), line, "", "") == id + "[\"" + Substitute(t, line, "", "") + "\"]"
  {
    var head := id + "[\"";
    assert '$' !in head by {
      assert forall k :: 0 <= k < |id| ==> head[k] == id[k];
    }
    assert Quoted(id, t) == head + (t + "\"]");
    SubstituteAppend(head, t + "\"]", line, "", "");
    SubstituteAppend(t, "\"]", line, "", "");
    SubstituteLiteral(head, line, "", "");
    SubstituteLiteral("\"]", line, "", "");
  }

  /** `A[$$x]` becomes `A["$x"]`: the replacement's `$$` stands for one dollar sign. */
  lemma DoubleDollarLabel(line: string, expected: string)
    requires line == "A[$$x]" && expected == "A[\"$x\"]"
    ensures QuoteNodes(SpecialLabels, line) == expected
  {
    var id, t := line[..1], line[2..5];
    assert line == id + "[" + t + "]";
    assert expected == id + "[\"" + t[1..] + "\"]";
    QuoteLabel(id, t);
    DollarDollar(t, line);
  }

  /** `$$` stands for one dollar sign; the text after it is kept. */
  lemma DollarDollar(t: string, matched: string)
    requires |t| >= 2 && t[0] == '$' && t[1] == '$' && '$' !in t[2..]
    ensures Substitute(t, matched, "", "") == t[1..]
  {
    SubstituteLiteral(t[2..], matched, "", "");
    assert t[1..] == "$" + t[2..];
  }

  /** `A[$&]` becomes `A["A[$&]"]`: the replacement's `$&` stands for the whole match. */
  lemma MatchPatternLabel(line: string, expected: string)
    requires line == "A[$&]" && expected == "A[\"A[$&]\"]"
    ensures QuoteNodes(SpecialLabels, line) == expected
  {
    var id, t := line[..1], line[2..4];
    assert line == id + "[" + t + "]";
    assert expected == id + "[\"" + line + "\"]";
    QuoteLabel(id, t);
    WholeMatch(t, line);
  }

  /** `$&` alone stands for the matched text. */
  lemma WholeMatch(t: string, matched: string)
    requires |t| == 2 && t[0] == '$' && t[1] == '&'
    ensures Substitute(t, matched, "", "") == matched
  {
    assert t[2..] == [];
  }

  /** The one-node instance of `QuoteSpecialLine` for the label examples above. */
  lemma QuoteLabel(id: string, t: string)
    requires id == "A" && |t| >= 1 && t[0] == '$' && forall k :: 0 <= k < |t| ==> t[k] != ']' && t[k] != '\n' && t[k] != '\r'
    requires forall k :: 0 <= k < |t| ==> t[k] as int < 0x2028
    ensures QuoteNodes(SpecialLabels, id + "[" + t + "]") == id + "[\"" + Substitute(t, id + "[" + t + "]", "", "") + "\"]"
  {
    assert AllOf(id, IsWordChar) by { assert IsWordChar(id[0]); }
    assert HasSpecial(t) by { assert !IsAsciiAlnum(t[0]) && !IsJsSpace(t[0]); }
    QuoteSpecialLine(id, t);
  }

  /** A line whose node labels are all letters, digits and spaces leaves the quoting pass unchanged. */
  lemma {:induction false} PlainLabelsUnchanged(line: string, from: nat, acc: string)
    requires from <= |line|
    requires forall p :: from <= p <= |line| && NodeAt(line, p).Some? ==> !HasSpecial(NodeAt(line, p).value.text)
    ensures QuoteNodesFrom(SpecialLabels, line, from, acc) == acc
    decreases |line| - from
  {
    match NextNode(line, from)
    case None =>
    case Some(m) =>
      PlainLabelsUnchanged(line, End(m), acc);
  }

  /** A match read off a line without a line feed has none in its id or label. */
  lemma MatchNoNewline(line: string, m: NodeMatch)
    requires End(m) <= |line| && line[m.start..End(m)] == Whole(m) && '\n' !in line
    ensures forall k :: 0 <= k < |m.id| ==> m.id[k] != '\n'
    ensures forall k :: 0 <= k < |m.text| ==> m.text[k] != '\n'
  {
    assert forall k :: 0 <= k < |m.text| ==> m.text[k] == line[m.start + |m.id| + 1 + k];
    assert forall k :: 0 <= k < |m.id| ==> m.id[k] == line[m.start + k];
  }

  /** Quoting one node brings in no line feed. */
  lemma QuoteNodeNoNewline(mode: Quoting, m: NodeMatch, acc: string)
    requires forall k :: 0 <= k < |m.id| ==> m.id[k] != '\n'
    requires forall k :: 0 <= k < |m.text| ==> m.text[k] != '\n'
    requires '\n' !in acc
    ensures '\n' !in QuoteNode(mode, m, acc)
  {
    assert forall k :: 0 <= k < |acc| ==> acc[k] != '\n';
    assert '\n' !in m.id && '\n' !in m.text;
    match mode
    case SpecialLabels =>
      assert '\n' !in Quoted(m.id, m.text);
    case AllLabels =>
      var text := EscapeQuotes(m.text);
      assert '\n' !in Quoted(m.id, text);
  }

  lemma {:induction false} QuoteNodesNoNewline(mode: Quoting, line: string, from: nat, acc: string)
    requires from <= |line| && '\n' !in line && '\n' !in acc
    ensures '\n' !in QuoteNodesFrom(mode, line, from, acc)
    decreases |line| - from
  {
    match NextNode(line, from)
    case None =>
    case Some(m) =>
      MatchNoNewline(line, m);
      QuoteNodeNoNewline(mode, m, acc);
      QuoteNodesNoNewline(mode, line, End(m), QuoteNode(mode, m, acc));
  }

  /**
   * Where a match of `<before>\s+<after>` starting at the head of `s` ends its white space:
   * `before`, a non-empty run of white space up to position q, then `after`.
   */
  function GapAt(s: string, before: string, after: string): (r: Option<nat>)
    requires |before| > 0
    ensures r.Some? ==> |before| < r.value && r.value + |after| <= |s|
    ensures r.Some? ==> s == before + s[|before|..r.value] + after + s[r.value + |after|..]
    ensures r.Some? ==> forall k :: |before| <= k < r.value ==> IsJsSpace(s[k])
  {
    if StartsWith(s, before) then
      var q := SpaceRunEnd(s, |before|);
      if q > |before| && StartsWith(s[q..], after) then
        assert s == s[..|before|] + s[|before|..q] + s[q..q + |after|] + s[q + |after|..];
        Some(q)
      else None
    else None
  }

  /** `s.replace(/<before>\s+<after>/g, <before><after>)`: a run of white space between the two is deleted. */
  function CloseGap(s: string, before: string, after: string): (r: string)
    requires |before| > 0
    decreases |s|
  {
    match GapAt(s, before, after)
    case Some(q) => before + after + CloseGap(s[q + |after|..], before, after)
    case None => if s == [] then [] else [s[0]] + CloseGap(s[1..], before, after)
  }

  lemma {:induction false} CloseGapNoNewline(s: string, before: string, after: string)
    requires |before| > 0 && '\n' !in s && '\n' !in before && '\n' !in after
    ensures '\n' !in CloseGap(s, before, after)
    decreases |s|
  {
    match GapAt(s, before, after)
    case Some(q) =>
      assert forall c :: c in s[q + |after|..] ==> c in s;
      CloseGapNoNewline(s[q + |after|..], before, after);
    case None =>
      if s != [] {
        assert forall c :: c in s[1..] ==> c in s;
        CloseGapNoNewline(s[1..], before, after);
      }
  }

  /** The end of the run of white space starting at `p`. */
  function SpaceRunEnd(s: string, p: nat): (q: nat)
    requires p <= |s|
    ensures p <= q <= |s|
    ensures forall k :: p <= k < q ==> IsJsSpace(s[k])
    ensures q < |s| ==> !IsJsSpace(s[q])
    decreases |s| - p
  {
    if p < |s| && IsJsSpace(s[p]) then SpaceRunEnd(s, p + 1) else p
  }

  /** The text with every white-space character deleted. */
  function Unspaced(s: string): string
  {
    if s == [] then [] else (if IsJsSpace(s[0]) then [] else [s[0]]) + Unspaced(s[1..])
  }

  lemma {:induction false} UnspacedAppend(a: string, b: string)
    ensures Unspaced(a + b) == Unspaced(a) + Unspaced(b)
  {
    if a != [] {
      assert (a + b)[1..] == a[1..] + b;
      UnspacedAppend(a[1..], b);
    } else {
      assert a + b == b;
    }
  }

  lemma {:induction false} UnspacedAllSpace(s: string)
    requires forall k :: 0 <= k < |s| ==> IsJsSpace(s[k])
    ensures Unspaced(s) == []
  {
    if s != [] {
      UnspacedAllSpace(s[1..]);
    }
  }

  lemma UnspacedGap(before: string, gap: string, after: string, rest: string)
    requires forall k :: 0 <= k < |gap| ==> IsJsSpace(gap[k])
    ensures Unspaced(before + gap + after + rest) == Unspaced(before + after + rest)
  {
    UnspacedAllSpace(gap);
    UnspacedAppend(before + gap, after + rest);
    UnspacedAppend(before, gap);
    UnspacedAppend(before, after + rest);
    assert before + gap + after + rest == (before + gap) + (after + rest);
    assert before + after + rest == before + (after + rest);
  }

  lemma UnspacedSuffix(p: string, x: string, y: string)
    requires Unspaced(x) == Unspaced(y)
    ensures Unspaced(p + x) == Unspaced(p + y)
  {
    UnspacedAppend(p, x);
    UnspacedAppend(p, y);
  }

  /** Closing an arrow gap deletes only white space: with the spaces removed, the line is as before. */
  lemma {:induction false} CloseGapOnlyDeletesSpace(s: string, before: string, after: string)
    requires |before| > 0
    ensures Unspaced(CloseGap(s, before, after)) == Unspaced(s)
    decreases |s|
  {
    match GapAt(s, before, after)
    case Some(q) =>
      var rest := s[q + |after|..];
      CloseGapOnlyDeletesSpace(rest, before, after);
      UnspacedGap(before, s[|before|..q], after, rest);
      UnspacedSuffix(before + after, CloseGap(rest, before, after), rest);
    case None =>
      if s != [] {
        CloseGapOnlyDeletesSpace(s[1..], before, after);
        UnspacedSuffix([s[0]], CloseGap(s[1..], before, after), s[1..]);
        assert s == [s[0]] + s[1..];
      }
  }

  /**
   * A gap is closed where it stands: `before`, a run of white space, then `after` (which does
   * not itself start with white space) become `before + after`, and the scan goes on after it.
   */
  lemma CloseGapCloses(before: string, gap: string, after: string, rest: string)
    requires |before| > 0 && |gap| > 0 && AllOf(gap, IsJsSpace)
    requires |after| > 0 && !IsJsSpace(after[0])
    ensures CloseGap(before + gap + after + rest, before, after) == before + after + CloseGap(rest, before, after)
  {
    var s := before + gap + after + rest;
    assert s[..|before|] == before;
    var q := SpaceRunEnd(s, |before|);
    assert s[|before| + |gap|] == after[0];
    assert forall k :: |before| <= k < |before| + |gap| ==> s[k] == gap[k - |before|];
    assert q == |before| + |gap|;
    assert s[q..][..|after|] == after;
    assert s[q + |after|..] == rest;
  }

  /** Text holding no first character of `before` is copied as it is. */
  lemma {:induction false} CloseGapPrefix(x: string, rest: string, before: string, after: string)
    requires |before| > 0 && before[0] !in x
    ensures CloseGap(x + rest, before, after) == x + CloseGap(rest, before, after)
    decreases |x|
  {
    if x == [] {
      assert x + rest == rest;
    } else {
      CloseGapPrefix(x[1..], rest, before, after);
      CloseGapPrefixStep(x, rest, before, after);
    }
  }

  /** The step of CloseGapPrefix past the first character of `x`. */
  lemma CloseGapPrefixStep(x: string, rest: string, before: string, after: string)
    requires |before| > 0 && x != [] && x[0] != before[0]
    requires CloseGap(x[1..] + rest, before, after) == x[1..] + CloseGap(rest, before, after)
    ensures CloseGap(x + rest, before, after) == x + CloseGap(rest, before, after)
  {
    var x' := x[1..];
    var c := CloseGap(rest, before, after);
    assert x + rest == [x[0]] + (x' + rest);
    CloseGapCons(x[0], x' + rest, before, after);
    assert [x[0]] + (x' + c) == x + c;
  }

  /** A character that does not begin `before` is copied, and the scan goes on after it. */
  lemma CloseGapCons(c: char, t: string, before: string, after: string)
    requires |before| > 0 && c != before[0]
    ensures CloseGap([c] + t, before, after) == [c] + CloseGap(t, before, after)
  {
    var s := [c] + t;
    assert s[1..] == t;
    assert !StartsWith(s, before) by {
      if |before| <= |s| {
        assert s[..|before|][0] == c;
      }
    }
  }

  /** Text without white space has no gap to close. */
  lemma {:induction false} CloseGapNoSpace(s: string, before: string, after: string)
    requires |before| > 0 && !HasChar(s, IsJsSpace)
    ensures CloseGap(s, before, after) == s
    decreases |s|
  {
    if s != [] {
      assert GapAt(s, before, after).None? by {
        if StartsWith(s, before) && |before| < |s| {
          assert !IsJsSpace(s[|before|]);
        }
      }
      CloseGapNoSpace(s[1..], before, after);
    }
  }

  /** Word characters: no white space, and none of the characters arrows are made of. */
  lemma WordNoArrow(a: string)
    requires AllOf(a, IsWordChar)
    ensures '-' !in a && '<' !in a && '>' !in a && !HasChar(a, IsJsSpace)
  {
  }

  /**
   * The arrow repairs of one line, in the order they are chained: only white space is
   * deleted, and no line feed is brought in.
   */
  function FixArrows(line: string): (r: string)
    ensures Unspaced(r) == Unspaced(line)
    ensures '\n' !in line ==> '\n' !in r
  {
    var a := CloseGap(line, "--", ">");
    var b := CloseGap(a, "-", ">");
    var c := CloseGap(b, "--", ">>");
    CloseGapOnlyDeletesSpace(line, "--", ">");
    CloseGapOnlyDeletesSpace(a, "-", ">");
    CloseGapOnlyDeletesSpace(b, "--", ">>");
    CloseGapOnlyDeletesSpace(c, "<", "--");
    assert '\n' !in line ==> '\n' !in CloseGap(c, "<", "--") by {
      if '\n' !in line {
        CloseGapNoNewline(line, "--", ">");
        CloseGapNoNewline(a, "-", ">");
        CloseGapNoNewline(b, "--", ">>");
        CloseGapNoNewline(c, "<", "--");
      }
    }
    CloseGap(c, "<", "--")
  }

  /** `a-- >b` becomes `a-->b` between two node names. */
  lemma ArrowGapClosed(a: string, gap: string, b: string)
    requires AllOf(a, IsWordChar) && AllOf(b, IsWordChar) && |gap| > 0 && AllOf(gap, IsJsSpace)
    ensures FixArrows(a + "--" + gap + ">" + b) == a + "-->" + b
  {
    WordNoArrow(a);
    WordNoArrow(b);
    var line := a + "--" + gap + ">" + b;
    assert line == a + ("--" + gap + ">" + b);
    CloseGapPrefix(a, "--" + gap + ">" + b, "--", ">");
    CloseGapCloses("--", gap, ">", b);
    CloseGapNoSpace(b, "--", ">");
    var r := a + "-->" + b;
    assert a + ("--" + ">" + b) == r;
    NoSpaceJoin(a, "-->", b);
    ClosedByFirstPass(line, r);
  }

  /** `a- >b` becomes `a->b`. */
  lemma ShortArrowGapClosed(a: string, gap: string, b: string)
    requires AllOf(a, IsWordChar) && AllOf(b, IsWordChar) && |gap| > 0 && AllOf(gap, IsJsSpace)
    ensures FixArrows(a + "-" + gap + ">" + b) == a + "->" + b
  {
    var line := a + "-" + gap + ">" + b;
    var r := a + "->" + b;
    ShortArrowFirstPass(a, gap, b);
    ShortArrowSecondPass(a, gap, b);
    WordNoArrow(a);
    WordNoArrow(b);
    NoSpaceJoin(a, "->", b);
    CloseGapNoSpace(r, "--", ">>");
    CloseGapNoSpace(r, "<", "--");
  }

  /** The `-- >` pass leaves `a- >b` alone: its dash is a single one. */
  lemma ShortArrowFirstPass(a: string, gap: string, b: string)
    requires AllOf(a, IsWordChar) && AllOf(b, IsWordChar) && |gap| > 0 && AllOf(gap, IsJsSpace)
    ensures CloseGap(a + "-" + gap + ">" + b, "--", ">") == a + "-" + gap + ">" + b
  {
    WordNoArrow(a);
    WordNoArrow(b);
    var tail := gap + ">" + b;
    var s := "-" + tail;
    assert '-' !in tail by { assert forall k :: 0 <= k < |gap| ==> gap[k] != '-'; }
    assert s[1] == gap[0];
    calc {
      CloseGap(a + "-" + gap + ">" + b, "--", ">");
      { assert a + "-" + gap + ">" + b == a + s; }
      CloseGap(a + s, "--", ">");
      { CloseGapPrefix(a, s, "--", ">"); }
      a + CloseGap(s, "--", ">");
      { CloseGapSkip(s, "--", ">"); assert s[1..] == tail; }
      a + ("-" + CloseGap(tail, "--", ">"));
      { CloseGapPrefix(tail, [], "--", ">"); assert tail + [] == tail; }
      a + ("-" + (tail + CloseGap([], "--", ">")));
      a + "-" + gap + ">" + b;
    }
  }

  /** Text that does not start with `before` keeps its first character. */
  lemma CloseGapSkip(s: string, before: string, after: string)
    requires |before| > 0 && s != [] && !StartsWith(s, before)
    ensures CloseGap(s, before, after) == [s[0]] + CloseGap(s[1..], before, after)
  {
  }

  /** The `- >` pass closes the gap of `a- >b`. */
  lemma ShortArrowSecondPass(a: string, gap: string, b: string)
    requires AllOf(a, IsWordChar) && AllOf(b, IsWordChar) && |gap| > 0 && AllOf(gap, IsJsSpace)
    ensures CloseGap(a + "-" + gap + ">" + b, "-", ">") == a + "->" + b
  {
    WordNoArrow(a);
    WordNoArrow(b);
    assert a + "-" + gap + ">" + b == a + ("-" + gap + ">" + b);
    CloseGapPrefix(a, "-" + gap + ">" + b, "-", ">");
    CloseGapCloses("-", gap, ">", b);
    CloseGapNoSpace(b, "-", ">");
    assert a + ("-" + ">" + b) == a + "->" + b;
  }

  /** `a-- >>b` becomes `a-->>b`, already in the first pass, whose `>` is the first of the two. */
  lemma DoubleHeadGapClosed(a: string, gap: string, b: string)
    requires AllOf(a, IsWordChar) && AllOf(b, IsWordChar) && |gap| > 0 && AllOf(gap, IsJsSpace)
    ensures FixArrows(a + "--" + gap + ">>" + b) == a + "-->>" + b
  {
    DoubleHeadFirstPass(a, gap, b);
    WordNoArrow(a);
    WordNoArrow(b);
    NoSpaceJoin(a, "-->>", b);
    ClosedByFirstPass(a + "--" + gap + ">>" + b, a + "-->>" + b);
  }

  /** A line whose first pass leaves no white space is left as that pass made it. */
  lemma ClosedByFirstPass(line: string, r: string)
    requires CloseGap(line, "--", ">") == r && !HasChar(r, IsJsSpace)
    ensures FixArrows(line) == r
  {
    CloseGapNoSpace(r, "-", ">");
    CloseGapNoSpace(r, "--", ">>");
    CloseGapNoSpace(r, "<", "--");
  }

  /** The `-- >` pass closes the gap of `a-- >>b`. */
  lemma DoubleHeadFirstPass(a: string, gap: string, b: string)
    requires AllOf(a, IsWordChar) && AllOf(b, IsWordChar) && |gap| > 0 && AllOf(gap, IsJsSpace)
    ensures CloseGap(a + "--" + gap + ">>" + b, "--", ">") == a + "-->>" + b
  {
    WordNoArrow(a);
    WordNoArrow(b);
    var line := a + "--" + gap + ">>" + b;
    assert line == a + ("--" + gap + ">" + (">" + b));
    CloseGapPrefix(a, "--" + gap + ">" + (">" + b), "--", ">");
    CloseGapCloses("--", gap, ">", ">" + b);
    assert '-' !in ">" + b;
    CloseGapPrefix(">" + b, [], "--", ">");
    assert ">" + b + [] == ">" + b;
    assert a + ("--" + ">" + (">" + b)) == a + "-->>" + b;
  }

  /** `a< --b` becomes `a<--b`. */
  lemma BackArrowGapClosed(a: string, gap: string, b: string)
    requires AllOf(a, IsWordChar) && AllOf(b, IsWordChar) && |gap| > 0 && AllOf(gap, IsJsSpace)
    ensures FixArrows(a + "<" + gap + "--" + b) == a + "<--" + b
  {
    var line := a + "<" + gap + "--" + b;
    BackArrowEarlyPass(a, gap, b, "--", ">");
    BackArrowEarlyPass(a, gap, b, "-", ">");
    BackArrowEarlyPass(a, gap, b, "--", ">>");
    BackArrowLastPass(a, gap, b);
  }

  /** The passes for right-pointing arrows leave `a< --b` alone: no white space follows its dashes. */
  lemma BackArrowEarlyPass(a: string, gap: string, b: string, before: string, after: string)
    requires AllOf(a, IsWordChar) && AllOf(b, IsWordChar) && |gap| > 0 && AllOf(gap, IsJsSpace)
    requires |before| > 0 && before[0] == '-'
    ensures CloseGap(a + "<" + gap + "--" + b, before, after) == a + "<" + gap + "--" + b
  {
    WordNoArrow(a);
    WordNoArrow(b);
    var head := a + "<" + gap;
    var tail := "--" + b;
    assert '-' !in head by { assert forall k :: 0 <= k < |gap| ==> gap[k] != '-'; }
    assert a + "<" + gap + "--" + b == head + tail;
    NoSpaceJoin([], "--", b);
    assert [] + "--" + b == tail;
    CloseGapPrefix(head, tail, before, after);
    CloseGapNoSpace(tail, before, after);
  }

  /** The `< --` pass closes the gap of `a< --b`. */
  lemma BackArrowLastPass(a: string, gap: string, b: string)
    requires AllOf(a, IsWordChar) && AllOf(b, IsWordChar) && |gap| > 0 && AllOf(gap, IsJsSpace)
    ensures CloseGap(a + "<" + gap + "--" + b, "<", "--") == a + "<--" + b
  {
    WordNoArrow(a);
    WordNoArrow(b);
    assert a + "<" + gap + "--" + b == a + ("<" + gap + "--" + b);
    CloseGapPrefix(a, "<" + gap + "--" + b, "<", "--");
    CloseGapCloses("<", gap, "--", b);
    CloseGapNoSpace(b, "<", "--");
    assert a + ("<" + "--" + b) == a + "<--" + b;
  }

  /** Three pieces without white space join to a piece without white space. */
  lemma NoSpaceJoin(a: string, m: string, b: string)
    requires !HasChar(a, IsJsSpace) && !HasChar(m, IsJsSpace) && !HasChar(b, IsJsSpace)
    ensures !HasChar(a + m + b, IsJsSpace)
  {
  }

  function FixLine(line: string): string
  {
    FixArrows(QuoteNodes(SpecialLabels, line))
  }

  function MapFixLine(lines: seq<string>): (r: seq<string>)
    ensures |r| == |lines|
    ensures forall k :: 0 <= k < |lines| ==> r[k] == FixLine(lines[k])
  {
    if lines == [] then [] else [FixLine(lines[0])] + MapFixLine(lines[1..])
  }

  /**
   * fixMermaidSyntax: trim the chart, then repair it line by line, keeping its line
   * structure: the result splits into exactly the repaired lines. The error message is not
   * consulted.
   */
  function FixMermaidSyntax(chartCode: string, errorMsg: string): (r: string)
    ensures Split(r, '\n') == MapFixLine(Split(Trim(chartCode), '\n'))
    ensures |Split(r, '\n')| == |Split(Trim(chartCode), '\n')|
  {
    var lines := Split(Trim(chartCode), '\n');
    var fixed := MapFixLine(lines);
    assert forall k :: 0 <= k < |fixed| ==> '\n' !in fixed[k] by {
      forall k | 0 <= k < |fixed|
        ensures '\n' !in fixed[k]
      {
        QuoteNodesNoNewline(SpecialLabels, lines[k], 0, lines[k]);
      }
    }
    SplitJoin(fixed, '\n');
    Join(fixed, '\n')
  }

  function MapQuoteAll(lines: seq<string>): (r: seq<string>)
    ensures |r| == |lines|
  {
    if lines == [] then [] else [QuoteNodes(AllLabels, lines[0])] + MapQuoteAll(lines[1..])
  }

  function MapTrim(lines: seq<string>): (r: seq<string>)
    ensures |r| == |lines|
  {
    if lines == [] then [] else [Trim(lines[0])] + MapTrim(lines[1..])
  }

  /**
   * `s.replace(/\s+/g, ' ')`: every run of white space becomes one space. The characters
   * other than white space are kept in order, no line feed is left, no two white-space
   * characters stand together, and the text starts as before.
   */
  function CollapseSpace(s: string): (r: string)
    ensures Unspaced(r) == Unspaced(s)
    ensures '\n' !in r
    ensures forall k :: 0 <= k < |r| - 1 ==> !(IsJsSpace(r[k]) && IsJsSpace(r[k + 1]))
    ensures s != [] && !IsJsSpace(s[0]) ==> r != [] && r[0] == s[0]
    ensures s != [] && IsJsSpace(s[0]) ==> r != [] && r[0] == ' '
    decreases |s|
  {
    if s == [] then []
    else if IsJsSpace(s[0]) then
      var q := SpaceRunEnd(s, 0);
      var rest := CollapseSpace(s[q..]);
      CollapsedRun(s, q, rest);
      " " + rest
    else
      [s[0]] + CollapseSpace(s[1..])
  }

  /** One run of white space at the head of `s`, up to `q`, collapsed to a space before the collapsed rest. */
  lemma CollapsedRun(s: string, q: nat, rest: string)
    requires 0 < q <= |s|
    requires forall k :: 0 <= k < q ==> IsJsSpace(s[k])
    requires q < |s| ==> !IsJsSpace(s[q]) && rest != [] && rest[0] == s[q]
    requires q == |s| ==> rest == []
    requires Unspaced(rest) == Unspaced(s[q..]) && '\n' !in rest
    requires forall k :: 0 <= k < |rest| - 1 ==> !(IsJsSpace(rest[k]) && IsJsSpace(rest[k + 1]))
    ensures Unspaced(" " + rest) == Unspaced(s)
    ensures '\n' !in " " + rest
    ensures forall k :: 0 <= k < |rest| ==> !(IsJsSpace((" " + rest)[k]) && IsJsSpace((" " + rest)[k + 1]))
  {
    UnspacedAllSpace(s[..q]);
    UnspacedAppend(s[..q], s[q..]);
    assert s == s[..q] + s[q..];
    assert Unspaced(" " + rest) == Unspaced(rest);
    forall k | 0 <= k < |rest|
      ensures !(IsJsSpace((" " + rest)[k]) && IsJsSpace((" " + rest)[k + 1]))
    {
      if k > 0 {
        assert (" " + rest)[k] == rest[k - 1] && (" " + rest)[k + 1] == rest[k];
      }
    }
  }

  /** Text whose white space is already single spaces is left as it is. */
  lemma {:induction false} CollapseSpaceSettled(s: string)
    requires forall k :: 0 <= k < |s| && IsJsSpace(s[k]) ==> s[k] == ' '
    requires forall k :: 0 <= k < |s| - 1 ==> !(IsJsSpace(s[k]) && IsJsSpace(s[k + 1]))
    ensures CollapseSpace(s) == s
    decreases |s|
  {
    if s != [] {
      SettledTail(s);
      CollapseSpaceSettled(s[1..]);
      assert IsJsSpace(s[0]) ==> s[0] == ' ' && (|s| > 1 ==> !IsJsSpace(s[1]));
      SettledStep(s);
    }
  }

  lemma SettledStep(s: string)
    requires s != [] && (IsJsSpace(s[0]) ==> s[0] == ' ' && (|s| > 1 ==> !IsJsSpace(s[1])))
    requires CollapseSpace(s[1..]) == s[1..]
    ensures CollapseSpace(s) == s
  {
    CollapseSpaceKeepsHead(s);
    assert [s[0]] + s[1..] == s;
  }

  lemma SettledTail(s: string)
    requires s != []
    requires forall k :: 0 <= k < |s| && IsJsSpace(s[k]) ==> s[k] == ' '
    requires forall k :: 0 <= k < |s| - 1 ==> !(IsJsSpace(s[k]) && IsJsSpace(s[k + 1]))
    ensures forall k :: 0 <= k < |s[1..]| && IsJsSpace(s[1..][k]) ==> s[1..][k] == ' '
    ensures forall k :: 0 <= k < |s[1..]| - 1 ==> !(IsJsSpace(s[1..][k]) && IsJsSpace(s[1..][k + 1]))
  {
    forall k | 0 <= k < |s[1..]|
      ensures s[1..][k] == s[k + 1]
    {
    }
  }

  /** A single space, or a character that is not white space, is kept as the head of the result. */
  lemma CollapseSpaceKeepsHead(s: string)
    requires s != [] && (IsJsSpace(s[0]) ==> s[0] == ' ' && (|s| > 1 ==> !IsJsSpace(s[1])))
    ensures CollapseSpace(s) == [s[0]] + CollapseSpace(s[1..])
  {
    if IsJsSpace(s[0]) {
      assert SpaceRunEnd(s, 1) == 1;
      assert SpaceRunEnd(s, 0) == 1;
    }
  }

  /** Collapsing twice is collapsing once. */
  lemma CollapseSpaceIdempotent(s: string)
    ensures CollapseSpace(CollapseSpace(s)) == CollapseSpace(s)
  {
    CollapseSpaceSingle(s);
    CollapseSpaceSettled(CollapseSpace(s));
  }

  lemma {:induction false} CollapseSpaceSingle(s: string)
    ensures forall k :: 0 <= k < |CollapseSpace(s)| && IsJsSpace(CollapseSpace(s)[k]) ==> CollapseSpace(s)[k] == ' '
    decreases |s|
  {
    if s != [] {
      if IsJsSpace(s[0]) {
        CollapseSpaceSingle(s[SpaceRunEnd(s, 0)..]);
      } else {
        CollapseSpaceSingle(s[1..]);
      }
    }
  }

  /** applyAggressiveFixes: quote every label when the error names 'PS', then flatten the white space. */
  function ApplyAggressiveFixes(chartCode: string, errorMsg: string): (r: string)
    ensures !Contains(errorMsg, "got 'PS'") ==> r == Join(MapTrim(Split(CollapseSpace(chartCode), '\n')), '\n')
  {
    var fixed := if Contains(errorMsg, "got 'PS'") then Join(MapQuoteAll(Split(chartCode, '\n')), '\n') else chartCode;
    Join(MapTrim(Split(CollapseSpace(fixed), '\n')), '\n')
  }

  /** Text with no line feed and no two white-space characters in a row, trimmed at both ends. */
  predicate Flat(r: string)
  {
    && '\n' !in r
    && (forall k :: 0 <= k < |r| - 1 ==> !(IsJsSpace(r[k]) && IsJsSpace(r[k + 1])))
    && (r != [] ==> !IsJsSpace(r[0]) && !IsJsSpace(r[|r| - 1]))
  }

  /** A slice brings in no line feed and no new pair of adjacent white-space characters. */
  lemma SliceKeepsSpacing(c: string, i: nat, j: nat, ws: char -> bool)
    requires i <= j <= |c| && '\n' !in c
    requires forall k :: 0 <= k < |c| - 1 ==> !(ws(c[k]) && ws(c[k + 1]))
    ensures '\n' !in c[i..j]
    ensures forall k :: 0 <= k < j - i - 1 ==> !(ws(c[i..j][k]) && ws(c[i..j][k + 1]))
  {
    var t := c[i..j];
    forall k | 0 <= k < |t| - 1
      ensures !(ws(t[k]) && ws(t[k + 1]))
    {
      assert t[k] == c[i + k] && t[k + 1] == c[i + k + 1];
    }
  }

  /** Stripping cuts out a slice, so it keeps both properties. */
  lemma StripKeepsSpacing(c: string, ws: char -> bool)
    requires '\n' !in c
    requires forall k :: 0 <= k < |c| - 1 ==> !(ws(c[k]) && ws(c[k + 1]))
    ensures '\n' !in Strip(c, ws)
    ensures forall k :: 0 <= k < |Strip(c, ws)| - 1 ==> !(ws(Strip(c, ws)[k]) && ws(Strip(c, ws)[k + 1]))
  {
    var i, j := StripSlice(c, ws);
    SliceKeepsSpacing(c, i, j, ws);
  }

  lemma TrimFlattens(c: string)
    requires '\n' !in c
    requires forall k :: 0 <= k < |c| - 1 ==> !(IsJsSpace(c[k]) && IsJsSpace(c[k + 1]))
    ensures Flat(Trim(c))
  {
    StripKeepsSpacing(c, IsJsSpace);
  }

  /**
   * The aggressive pass always yields a single line: no line feed, no two white-space
   * characters in a row, nothing to trim at either end.
   */
  lemma AggressiveFlattens(chartCode: string, errorMsg: string)
    ensures Flat(ApplyAggressiveFixes(chartCode, errorMsg))
  {
    var fixed := if Contains(errorMsg, "got 'PS'") then Join(MapQuoteAll(Split(chartCode, '\n')), '\n') else chartCode;
    var c := CollapseSpace(fixed);
    assert Split(c, '\n') == [c];
    assert MapTrim([c]) == [Trim(c)];
    TrimFlattens(c);
  }
}
