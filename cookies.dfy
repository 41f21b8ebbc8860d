// The Cookie-header readers. All of them split the header on ';', trim each segment and split
// it on every '=': the name is the text before the first '=' and the value the text between
// the first and the second '=' (absent when there is no '='). The cookie-string grammar of
// section 4.2.1 of RFC 6265 would keep everything after the first '=' instead.
module Cookies {
  import opened Text
  import opened Wrappers
  import opened Http

  /** A segment as `const [name, value] = segment.trim().split('=')` destructures it. */
  datatype Pair = Pair(name: string, value: Option<string>)

  /** Destructuring an already trimmed segment. */
  function SplitPair(t: string): Pair
  {
    var parts := Split(t, '=');
    Pair(parts[0], if |parts| >= 2 then Some(parts[1]) else None)
  }

  /** Neither part holds an '=', and the value is `undefined` exactly when the segment has no '='. */
  lemma SplitPairShape(t: string)
    ensures '=' !in SplitPair(t).name
    ensures SplitPair(t).value.None? <==> '=' !in t
    ensures SplitPair(t).value.Some? ==> '=' !in SplitPair(t).value.value
  {
  }

  function ParseSegment(segment: string): Pair
  {
    SplitPair(Trim(segment))
  }

  function PairsOf(segments: seq<string>): (r: seq<Pair>)
    ensures |r| == |segments|
  {
    if segments == [] then [] else [ParseSegment(segments[0])] + PairsOf(segments[1..])
  }

  lemma {:induction false} PairsOfAt(segments: seq<string>, i: nat)
    requires i < |segments|
    ensures PairsOf(segments)[i] == ParseSegment(segments[i])
  {
    if i > 0 {
      PairsOfAt(segments[1..], i - 1);
    }
  }

  /** The header's segments, parsed. */
  function Pairs(header: string): seq<Pair>
  {
    PairsOf(Split(header, ';'))
  }

  /** Splitting at a first separator gives the text before it, then the split of the rest. */
  lemma SplitAtFirst(a: string, b: string, c: char)
    requires c !in a
    ensures Split(a + [c] + b, c) == [a] + Split(b, c)
  {
    var s := a + [c] + b;
    assert s[|a|] == c;
    var i := IndexOf(s, c);
    assert forall j :: 0 <= j < |a| ==> s[j] == a[j];
    assert s[..i] == a;
    assert s[i + 1..] == b;
  }

  /** A segment `name=value` without a further '=' gives its name and value. */
  lemma NameValuePair(name: string, v: string)
    requires '=' !in name && '=' !in v
    ensures SplitPair(name + "=" + v) == Pair(name, Some(v))
  {
    SplitAtFirst(name, v, '=');
  }

  /** Whatever follows a second '=' is cut off the value. */
  lemma SecondEqualsTruncates(name: string, v: string, rest: string)
    requires '=' !in name && '=' !in v
    ensures SplitPair(name + "=" + v + "=" + rest) == Pair(name, Some(v))
  {
    assert name + "=" + v + "=" + rest == name + ['='] + (v + ['='] + rest);
    SplitAtFirst(name, v + ['='] + rest, '=');
    SplitAtFirst(v, rest, '=');
  }

  /** A space before the '=' becomes part of the name, so the segment matches no cookie name. */
  lemma SpaceBeforeEqualsNoMatch(name: string, v: string)
    requires '=' !in name
    ensures SplitPair(name + " =" + v).name == name + " "
    ensures SplitPair(name + " =" + v).name != name
  {
    assert name + " =" + v == (name + " ") + ['='] + v;
    SplitAtFirst(name + " ", v, '=');
    assert |name + " "| != |name|;
  }

  /**
   * The loop readers' answer: `null` when no segment has the name, otherwise the value of the
   * first segment that has it, `undefined` (`Found(None)`) for a segment without '='.
   */
  datatype Lookup = Null | Found(value: Option<string>)

  function FirstMatch(pairs: seq<Pair>, name: string): Lookup
  {
    if pairs == [] then Null
    else if pairs[0].name == name then Found(pairs[0].value)
    else FirstMatch(pairs[1..], name)
  }

  /** `null` exactly when no segment has the name. */
  lemma {:induction false} FirstMatchNull(pairs: seq<Pair>, name: string)
    ensures FirstMatch(pairs, name).Null? <==> forall i :: 0 <= i < |pairs| ==> pairs[i].name != name
  {
    if pairs != [] {
      FirstMatchNull(pairs[1..], name);
      assert forall i :: 1 <= i < |pairs| ==> pairs[i] == pairs[1..][i - 1];
    }
  }

  /** The segment at `i` decides when it has the name and no earlier one does. */
  lemma {:induction false} FirstMatchAt(pairs: seq<Pair>, name: string, i: nat)
    requires i < |pairs| && pairs[i].name == name
    requires forall j :: 0 <= j < i ==> pairs[j].name != name
    ensures FirstMatch(pairs, name) == Found(pairs[i].value)
  {
    if i > 0 {
      assert pairs[0].name != name;
      assert forall j :: 0 <= j < i - 1 ==> pairs[1..][j] == pairs[j + 1];
      FirstMatchAt(pairs[1..], name, i - 1);
    }
  }

  /** One step of the loop: the segment at `i` answers if it has the name, else the rest does. */
  lemma FirstMatchStep(segments: seq<string>, i: nat, name: string)
    requires i < |segments|
    ensures FirstMatch(PairsOf(segments[i..]), name) ==
              if ParseSegment(segments[i]).name == name then Found(ParseSegment(segments[i]).value)
              else FirstMatch(PairsOf(segments[i + 1..]), name)
  {
    assert segments[i..] == [segments[i]] + segments[i + 1..];
    var rest := PairsOf(segments[i + 1..]);
    assert PairsOf(segments[i..]) == [ParseSegment(segments[i])] + rest;
    assert ([ParseSegment(segments[i])] + rest)[1..] == rest;
  }

  /** The loop over the segments: return at the first one whose name matches. */
  method FirstMatchLoop(cookies: seq<string>, cookieName: string) returns (r: Lookup)
    ensures r == FirstMatch(PairsOf(cookies), cookieName)
  {
    assert cookies[0..] == cookies;
    for i := 0 to |cookies|
      invariant FirstMatch(PairsOf(cookies[i..]), cookieName) == FirstMatch(PairsOf(cookies), cookieName)
    {
      var pair := ParseSegment(cookies[i]);
      FirstMatchStep(cookies, i, cookieName);
      if pair.name == cookieName {
        return Found(pair.value);
      }
    }
    assert cookies[|cookies|..] == [];
    return Null;
  }

  /** `getCookieValue`, loop variant: split the header on ';', then the loop. */
  method GetCookieValueFirst(cookieString: string, cookieName: string) returns (r: Lookup)
    ensures r == FirstMatch(Pairs(cookieString), cookieName)
  {
    var cookies := Split(cookieString, ';');
    r := FirstMatchLoop(cookies, cookieName);
  }

  /** The loop variant's token as the handlers test it (`null` and `undefined` are both absent). */
  function FirstToken(header: string, name: string): (r: Option<string>)
    ensures r.None? <==> FirstMatch(Pairs(header), name).Null? || FirstMatch(Pairs(header), name).value.None?
  {
    match FirstMatch(Pairs(header), name)
    case Null => None
    case Found(v) => v
  }

  /** The accumulator of the `reduce` variants: named segments in order, a later one overwriting. */
  function Jar(pairs: seq<Pair>): map<string, Option<string>>
  {
    if pairs == [] then map[]
    else
      var n := |pairs| - 1;
      var acc := Jar(pairs[..n]);
      if pairs[n].name != "" then acc[pairs[n].name := pairs[n].value] else acc
  }

  /** The keys are the non-empty names of the segments. */
  lemma {:induction false} JarKeys(pairs: seq<Pair>, k: string)
    ensures k in Jar(pairs) <==> k != "" && exists i :: 0 <= i < |pairs| && pairs[i].name == k
  {
    if pairs != [] {
      var n := |pairs| - 1;
      JarKeys(pairs[..n], k);
      assert forall i :: 0 <= i < n ==> pairs[..n][i] == pairs[i];
      if k in Jar(pairs[..n]) {
        var i :| 0 <= i < n && pairs[..n][i].name == k;
        assert pairs[i].name == k;
      }
    }
  }

  /** A repeated name keeps the value of its last segment. */
  lemma {:induction false} JarLastWins(pairs: seq<Pair>, i: nat)
    requires i < |pairs| && pairs[i].name != ""
    requires forall j :: i < j < |pairs| ==> pairs[j].name != pairs[i].name
    ensures pairs[i].name in Jar(pairs) && Jar(pairs)[pairs[i].name] == pairs[i].value
  {
    var n := |pairs| - 1;
    if i < n {
      assert forall j :: i < j < n ==> pairs[..n][j] == pairs[j];
      JarLastWins(pairs[..n], i);
    }
  }

  lemma {:induction false} PairsOfSnoc(segments: seq<string>, segment: string)
    ensures PairsOf(segments + [segment]) == PairsOf(segments) + [ParseSegment(segment)]
  {
    if segments != [] {
      var rest := segments[1..];
      assert (segments + [segment])[1..] == rest + [segment];
      PairsOfSnoc(rest, segment);
      assert PairsOf(segments + [segment]) == [ParseSegment(segments[0])] + PairsOf(rest + [segment]);
    }
  }

  lemma JarSnoc(pairs: seq<Pair>, pair: Pair)
    ensures Jar(pairs + [pair]) == if pair.name != "" then Jar(pairs)[pair.name := pair.value] else Jar(pairs)
  {
    assert (pairs + [pair])[..|pairs|] == pairs;
  }

  /** One step of the `reduce`: a named segment overwrites its entry, an unnamed one is skipped. */
  lemma JarStep(segments: seq<string>, i: nat)
    requires i < |segments|
    ensures Jar(PairsOf(segments[..i + 1])) ==
              var pair := ParseSegment(segments[i]);
              if pair.name != "" then Jar(PairsOf(segments[..i]))[pair.name := pair.value]
              else Jar(PairsOf(segments[..i]))
  {
    assert segments[..i + 1] == segments[..i] + [segments[i]];
    PairsOfSnoc(segments[..i], segments[i]);
    JarSnoc(PairsOf(segments[..i]), ParseSegment(segments[i]));
  }

  /** `cookieHeader.split(';').reduce(...)`, the dictionary the `reduce` variants build. */
  method CookieJar(cookieHeader: string) returns (acc: map<string, Option<string>>)
    ensures acc == Jar(Pairs(cookieHeader))
  {
    var cookies := Split(cookieHeader, ';');
    acc := map[];
    assert cookies[..0] == [];
    for i := 0 to |cookies|
      invariant acc == Jar(PairsOf(cookies[..i]))
    {
      var pair := ParseSegment(cookies[i]);
      JarStep(cookies, i);
      if pair.name != "" {
        acc := acc[pair.name := pair.value];
      }
    }
    assert cookies[..|cookies|] == cookies;
  }

  /** `cookies[name]`: the last value, `undefined` when no segment has the name. */
  function LastOrUndefined(header: string, name: string): (r: Option<string>)
    ensures name == "" ==> r == None
  {
    var jar := Jar(Pairs(header));
    JarKeys(Pairs(header), name);
    if name in jar then jar[name] else None
  }

  /** `cookies[name] || null`: an empty value becomes `null` too, so the token tests agree. */
  function LastOrNull(header: string, name: string): (r: Option<string>)
    ensures r.Some? ==> r.value != ""
    ensures Truthy(r) <==> Truthy(LastOrUndefined(header, name))
    ensures Truthy(r) ==> r == LastOrUndefined(header, name)
  {
    var v := LastOrUndefined(header, name);
    if Truthy(v) then v else None
  }

  /**
   * When one segment alone carries the name, the loop readers and the `reduce` readers find the
   * same value; they differ only for a repeated name.
   */
  lemma UniqueNameReadersAgree(pairs: seq<Pair>, i: nat)
    requires i < |pairs| && pairs[i].name != ""
    requires forall j :: 0 <= j < |pairs| && j != i ==> pairs[j].name != pairs[i].name
    ensures FirstMatch(pairs, pairs[i].name) == Found(pairs[i].value)
    ensures pairs[i].name in Jar(pairs) && Jar(pairs)[pairs[i].name] == pairs[i].value
  {
    FirstMatchAt(pairs, pairs[i].name, i);
    JarLastWins(pairs, i);
  }

  /** A repeated name: the loop readers keep the first value and the `reduce` readers the last. */
  lemma RepeatedNameReadersDiffer(pairs: seq<Pair>, i: nat, k: nat)
    requires i < k < |pairs| && pairs[i].name != "" && pairs[k].name == pairs[i].name
    requires forall j :: 0 <= j < |pairs| && j != i && j != k ==> pairs[j].name != pairs[i].name
    ensures FirstMatch(pairs, pairs[i].name) == Found(pairs[i].value)
    ensures pairs[i].name in Jar(pairs) && Jar(pairs)[pairs[i].name] == pairs[k].value
  {
    FirstMatchAt(pairs, pairs[i].name, i);
    JarLastWins(pairs, k);
  }
}
