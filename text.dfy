// Character classes and string helpers shared by the modelled JavaScript and Python code.
module Text {

  /** JavaScript's WhiteSpace and LineTerminator set, as used by String.prototype.trim and by `\s`. */
  predicate IsJsSpace(c: char)
  {
    c == '\t' || c == '\n' || c == '\U{0B}' || c == '\U{0C}' || c == '\r' || c == ' '
    || c == '\U{A0}' || c == '\U{1680}' || ('\U{2000}' <= c <= '\U{200A}')
    || c == '\U{2028}' || c == '\U{2029}' || c == '\U{202F}' || c == '\U{205F}'
    || c == '\U{3000}' || c == '\U{FEFF}'
  }

  /** The characters Python's str.isspace accepts, which str.strip() removes. */
  predicate IsPySpace(c: char)
  {
    c == '\t' || c == '\n' || c == '\U{0B}' || c == '\U{0C}' || c == '\r'
    || ('\U{1C}' <= c <= '\U{1F}') || c == ' ' || c == '\U{85}' || c == '\U{A0}'
    || c == '\U{1680}' || ('\U{2000}' <= c <= '\U{200A}')
    || c == '\U{2028}' || c == '\U{2029}' || c == '\U{202F}' || c == '\U{205F}' || c == '\U{3000}'
  }

  predicate AllOf(s: string, p: char -> bool)
  {
    forall i :: 0 <= i < |s| ==> p(s[i])
  }

  /** Drops the leading characters that satisfy `ws`. */
  function DropLeading(s: string, ws: char -> bool): (r: string)
    ensures |r| <= |s|
    ensures r != [] ==> !ws(r[0])
    decreases |s|
  {
    if s != [] && ws(s[0]) then DropLeading(s[1..], ws) else s
  }

  /** Drops the trailing characters that satisfy `ws`. */
  function DropTrailing(s: string, ws: char -> bool): (r: string)
    ensures |r| <= |s|
    ensures r != [] ==> !ws(r[|r| - 1])
    decreases |s|
  {
    if s != [] && ws(s[|s| - 1]) then DropTrailing(s[..|s| - 1], ws) else s
  }

  /** What `DropLeading` keeps is a suffix, and everything before it is in the class. */
  lemma {:induction false} DropLeadingSuffix(s: string, ws: char -> bool)
    ensures DropLeading(s, ws) == s[|s| - |DropLeading(s, ws)|..]
    ensures AllOf(s[..|s| - |DropLeading(s, ws)|], ws)
    decreases |s|
  {
    if s != [] && ws(s[0]) {
      DropLeadingSuffix(s[1..], ws);
      var r := DropLeading(s, ws);
      assert s[1..][|s| - 1 - |r|..] == s[|s| - |r|..];
      var dropped := s[..|s| - |r|];
      forall i | 0 <= i < |dropped|
        ensures ws(dropped[i])
      {
        if i > 0 {
          assert dropped[i] == s[1..][..|s| - 1 - |r|][i - 1];
        }
      }
    }
  }

  /** What `DropTrailing` keeps is a prefix, and everything after it is in the class. */
  lemma {:induction false} DropTrailingPrefix(s: string, ws: char -> bool)
    ensures DropTrailing(s, ws) == s[..|DropTrailing(s, ws)|]
    ensures AllOf(s[|DropTrailing(s, ws)|..], ws)
    decreases |s|
  {
    if s != [] && ws(s[|s| - 1]) {
      DropTrailingPrefix(s[..|s| - 1], ws);
      var r := DropTrailing(s, ws);
      assert s[..|s| - 1][..|r|] == s[..|r|];
      var dropped := s[|r|..];
      forall i | 0 <= i < |dropped|
        ensures ws(dropped[i])
      {
        if i < |s| - 1 - |r| {
          assert dropped[i] == s[..|s| - 1][|r|..][i];
        }
      }
    }
  }

  /** Removes surrounding characters of class `ws` on both sides. */
  function Strip(s: string, ws: char -> bool): (r: string)
    ensures |r| <= |s|
    ensures r != [] ==> !ws(r[0]) && !ws(r[|r| - 1])
  {
    var a := DropLeading(s, ws);
    if a == [] then a
    else
      DropTrailingKeepsHead(a, ws);
      DropTrailing(a, ws)
  }

  /** A first character outside the class survives `DropTrailing`. */
  lemma {:induction false} DropTrailingKeepsHead(s: string, ws: char -> bool)
    requires s != [] && !ws(s[0])
    ensures DropTrailing(s, ws) != [] && DropTrailing(s, ws)[0] == s[0]
    decreases |s|
  {
    if ws(s[|s| - 1]) {
      DropTrailingKeepsHead(s[..|s| - 1], ws);
    }
  }

  /** What stripping keeps is one slice of the string, and what it cuts off on either side is in the class. */
  lemma StripSlice(s: string, ws: char -> bool) returns (i: nat, j: nat)
    ensures i <= j <= |s| && Strip(s, ws) == s[i..j]
    ensures AllOf(s[..i], ws) && AllOf(s[j..], ws)
  {
    var a := DropLeading(s, ws);
    var b := DropTrailing(a, ws);
    DropLeadingSuffix(s, ws);
    DropTrailingPrefix(a, ws);
    i, j := |s| - |a|, |s| - |a| + |b|;
    assert b == s[i..j];
    assert s[j..] == a[|b|..];
  }

  /** String.prototype.trim. */
  function Trim(s: string): string { Strip(s, IsJsSpace) }

  /** Python's str.strip() without arguments. */
  function PyStrip(s: string): string { Strip(s, IsPySpace) }

  lemma AllOfCons(s: string, p: char -> bool)
    requires s != []
    ensures AllOf(s, p) <==> p(s[0]) && AllOf(s[1..], p)
  {
    assert forall i :: 0 < i < |s| ==> s[i] == s[1..][i - 1];
  }

  lemma {:induction false} DropLeadingAll(s: string, ws: char -> bool)
    ensures DropLeading(s, ws) == [] <==> AllOf(s, ws)
    decreases |s|
  {
    if s != [] {
      AllOfCons(s, ws);
      if ws(s[0]) {
        DropLeadingAll(s[1..], ws);
      }
    }
  }

  /** Stripping leaves nothing exactly when every character belongs to the class. */
  lemma StripEmpty(s: string, ws: char -> bool)
    ensures Strip(s, ws) == [] <==> AllOf(s, ws)
  {
    DropLeadingAll(s, ws);
    var a := DropLeading(s, ws);
    if a != [] {
      DropTrailingKeepsHead(a, ws);
    }
  }

  /** A string with no surrounding whitespace is its own trim. */
  lemma TrimIdentity(s: string)
    requires s == [] || (!IsJsSpace(s[0]) && !IsJsSpace(s[|s| - 1]))
    ensures Trim(s) == s
  {
  }

  /**
   * The length JavaScript reports for a string (`.length`, and what zod's `min` and `max`
   * compare): UTF-16 code units, so a character above U+FFFF counts twice.
   */
  function JsLength(s: string): (n: nat)
    ensures |s| <= n <= 2 * |s|
  {
    if s == [] then 0 else (if s[0] as int >= 0x1_0000 then 2 else 1) + JsLength(s[1..])
  }

  /** The JavaScript length of a concatenation is the sum of the lengths. */
  lemma {:induction false} JsLengthAppend(a: string, b: string)
    ensures JsLength(a + b) == JsLength(a) + JsLength(b)
  {
    if a != [] {
      assert (a + b)[1..] == a[1..] + b;
      JsLengthAppend(a[1..], b);
    } else {
      assert a + b == b;
    }
  }

  /** On text inside the Basic Multilingual Plane the JavaScript length is the character count. */
  lemma {:induction false} JsLengthBmp(s: string)
    requires forall i :: 0 <= i < |s| ==> s[i] as int < 0x1_0000
    ensures JsLength(s) == |s|
  {
    if s != [] {
      JsLengthBmp(s[1..]);
    }
  }

  /** One character above U+FFFF makes the JavaScript length exceed the character count. */
  lemma JsLengthAstral(s: string, i: nat)
    requires i < |s| && s[i] as int >= 0x1_0000
    ensures JsLength(s) > |s|
  {
    assert s == s[..i] + [s[i]] + s[i + 1..];
    JsLengthAppend(s[..i] + [s[i]], s[i + 1..]);
    JsLengthAppend(s[..i], [s[i]]);
    assert JsLength([s[i]]) == 2 by {
      assert [s[i]][1..] == [];
    }
  }

  /** ASCII upper case to lower case, other characters unchanged. */
  function LowerChar(c: char): (r: char)
    ensures 'A' <= c <= 'Z' ==> 'a' <= r <= 'z'
    ensures !('A' <= c <= 'Z') ==> r == c
  {
    if 'A' <= c <= 'Z' then (c as int + 32) as char else c
  }

  function Lower(s: string): (r: string)
    ensures |r| == |s|
    ensures forall i :: 0 <= i < |s| ==> r[i] == LowerChar(s[i])
  {
    if s == [] then [] else [LowerChar(s[0])] + Lower(s[1..])
  }

  /** Lower-casing twice is lower-casing once. */
  lemma LowerIdempotent(s: string)
    ensures Lower(Lower(s)) == Lower(s)
  {
    assert forall i :: 0 <= i < |s| ==> LowerChar(LowerChar(s[i])) == LowerChar(s[i]);
  }

  predicate StartsWith(s: string, p: string)
  {
    |p| <= |s| && s[..|p|] == p
  }

  predicate EndsWith(s: string, p: string)
  {
    |p| <= |s| && s[|s| - |p|..] == p
  }

  /** String.prototype.includes. */
  predicate Contains(s: string, sub: string)
  {
    exists i :: 0 <= i <= |s| - |sub| && StartsWith(s[i..], sub)
  }

  lemma ContainsEmpty(s: string)
    ensures Contains(s, "")
  {
    assert StartsWith(s[0..], "");
  }

  lemma ContainsSelf(s: string)
    ensures Contains(s, s)
  {
    assert s[0..] == s;
  }

  /** The first position of `c` in `s`. */
  function IndexOf(s: string, c: char): (i: nat)
    requires c in s
    ensures i < |s| && s[i] == c && c !in s[..i]
  {
    if s[0] == c then 0 else IndexOf(s[1..], c) + 1
  }

  /** String.prototype.split with a one-character separator. */
  function Split(s: string, c: char): (r: seq<string>)
    ensures |r| >= 1
    ensures forall k :: 0 <= k < |r| ==> c !in r[k]
    decreases |s|
  {
    if c in s then
      var i := IndexOf(s, c);
      [s[..i]] + Split(s[i + 1..], c)
    else [s]
  }

  /** Array.prototype.join with a one-character separator. */
  function Join(parts: seq<string>, c: char): string
  {
    if |parts| == 0 then ""
    else if |parts| == 1 then parts[0]
    else parts[0] + [c] + Join(parts[1..], c)
  }

  lemma {:induction false} JoinSplit(s: string, c: char)
    ensures Join(Split(s, c), c) == s
    decreases |s|
  {
    if c in s {
      var i := IndexOf(s, c);
      var rest := Split(s[i + 1..], c);
      JoinSplit(s[i + 1..], c);
      calc {
        Join(Split(s, c), c);
        Join([s[..i]] + rest, c);
        { JoinCons(s[..i], rest, c); }
        s[..i] + [c] + Join(rest, c);
        s[..i] + [c] + s[i + 1..];
        { assert s == s[..i] + [c] + s[i + 1..]; }
        s;
      }
    } else {
      assert Split(s, c) == [s];
    }
  }

  /** Joining a part in front of at least one more puts the separator between them. */
  lemma JoinCons(p: string, rest: seq<string>, c: char)
    requires |rest| >= 1
    ensures Join([p] + rest, c) == p + [c] + Join(rest, c)
  {
    assert ([p] + rest)[1..] == rest;
  }

  /** A separator with none before it is the first one. */
  lemma IndexOfAt(s: string, c: char, i: nat)
    requires i < |s| && s[i] == c && c !in s[..i]
    ensures IndexOf(s, c) == i
  {
  }

  lemma {:induction false} SplitJoin(parts: seq<string>, c: char)
    requires |parts| >= 1
    requires forall k :: 0 <= k < |parts| ==> c !in parts[k]
    ensures Split(Join(parts, c), c) == parts
    decreases |parts|
  {
    if |parts| > 1 {
      var p, rest := parts[0], parts[1..];
      var tail := Join(rest, c);
      var s := p + [c] + tail;
      JoinCons(p, rest, c);
      assert [p] + rest == parts;
      assert c !in p;
      assert s[..|p|] == p && s[|p| + 1..] == tail;
      IndexOfAt(s, c, |p|);
      SplitJoin(rest, c);
      calc {
        Split(Join(parts, c), c);
        Split(s, c);
        [s[..|p|]] + Split(s[|p| + 1..], c);
        [p] + Split(tail, c);
        [p] + rest;
        parts;
      }
    } else {
      assert c !in parts[0];
    }
  }

  function DigitChar(d: nat): char
    requires d < 10
  {
    ('0' as int + d) as char
  }

  /** Decimal rendering of a natural number, as String(n) or a template literal does it. */
  function NatToString(n: nat): (r: string)
    ensures |r| >= 1
    ensures forall k :: 0 <= k < |r| ==> '0' <= r[k] <= '9'
  {
    if n < 10 then [DigitChar(n)] else NatToString(n / 10) + [DigitChar(n % 10)]
  }

  function IntToString(n: int): (r: string)
    ensures |r| >= 1
  {
    if n < 0 then "-" + NatToString(-n) else NatToString(n)
  }

  predicate IsAsciiUpper(c: char) { 'A' <= c <= 'Z' }
  predicate IsAsciiLower(c: char) { 'a' <= c <= 'z' }
  predicate IsAsciiDigit(c: char) { '0' <= c <= '9' }
  predicate IsAsciiAlnum(c: char) { IsAsciiUpper(c) || IsAsciiLower(c) || IsAsciiDigit(c) }
  /** The regular-expression class `\w`. */
  predicate IsWordChar(c: char) { IsAsciiAlnum(c) || c == '_' }

  predicate HasChar(s: string, p: char -> bool)
  {
    exists i :: 0 <= i < |s| && p(s[i])
  }

  /** The concatenation of a list of strings, `parts.join('')`. */
  function Concat(parts: seq<string>): string
  {
    if parts == [] then "" else parts[0] + Concat(parts[1..])
  }

  lemma {:induction false} ConcatAppend(a: seq<string>, b: seq<string>)
    ensures Concat(a + b) == Concat(a) + Concat(b)
  {
    if a != [] {
      assert (a + b)[1..] == a[1..] + b;
      ConcatAppend(a[1..], b);
    } else {
      assert a + b == b;
    }
  }

  lemma ContainsAppendLeft(a: string, b: string, sub: string)
    requires Contains(b, sub)
    ensures Contains(a + b, sub)
  {
    var i :| 0 <= i <= |b| - |sub| && StartsWith(b[i..], sub);
    assert (a + b)[|a| + i..] == b[i..];
  }

  lemma ContainsAppendRight(a: string, b: string, sub: string)
    requires Contains(a, sub)
    ensures Contains(a + b, sub)
  {
    var i :| 0 <= i <= |a| - |sub| && StartsWith(a[i..], sub);
    assert (a + b)[i..][..|sub|] == a[i..][..|sub|];
  }
}
