// The learning-style assessment server: answer validation, the gibberish test and the
// stateless question/answer step that ends in a labelled classification.
module LearningStyleServer {
  import opened Wrappers
  import opened Text

  /**
   * The foreign pieces the server leans on: the English word list, the word tokenizer, and
   * the number of matching characters difflib finds between a dictionary word and a token
   * (the M of difflib's ratio 2*M/T).
   */
  datatype Lexicon = Lexicon(words: set<string>, tokenize: string -> seq<string>, matching: (string, string) -> nat)

  /** difflib's ratio for M matching characters in two strings of total length T (1.0 when T is 0). */
  function Ratio(m: nat, t: nat): real
  {
    if t == 0 then 1.0 else (2 * m) as real / t as real
  }

  /** The similarity cut-off passed to get_close_matches. */
  const Cutoff: real := 0.8

  /** For a positive denominator, a quotient reaches c exactly when the numerator reaches c times it. */
  lemma QuotientAtLeast(a: real, b: real, c: real)
    requires b > 0.0
    ensures a / b >= c <==> a >= c * b
  {
    var q := a / b;
    assert q * b == a;
    if q >= c {
      assert q * b >= c * b;
    } else {
      assert q * b < c * b;
    }
  }

  /** The cut-off test stated on integers: 2*M/T >= 0.8 exactly when 5*M >= 2*T. */
  lemma RatioCutoff(m: nat, t: nat)
    ensures Ratio(m, t) >= Cutoff <==> 5 * m >= 2 * t
  {
    if t > 0 {
      QuotientAtLeast((2 * m) as real, t as real, Cutoff);
    }
  }

  /** The dictionary words get_close_matches would consider close to `w`, by the integer cut-off test. */
  function CloseMatches(lex: Lexicon, w: string): set<string>
  {
    set x | x in lex.words && 5 * lex.matching(x, w) >= 2 * (|x| + |w|)
  }

  /** The close matches are the dictionary words whose difflib ratio with `w` reaches 0.8. */
  lemma CloseMatchesByRatio(lex: Lexicon, w: string)
    ensures forall x :: x in CloseMatches(lex, w) <==> x in lex.words && Ratio(lex.matching(x, w), |x| + |w|) >= Cutoff
  {
    forall x | x in lex.words
      ensures x in CloseMatches(lex, w) <==> Ratio(lex.matching(x, w), |x| + |w|) >= Cutoff
    {
      RatioCutoff(lex.matching(x, w), |x| + |w|);
    }
  }

  /** There is a close match exactly when some dictionary word passes the cut-off test. */
  lemma CloseMatchesNonEmpty(lex: Lexicon, w: string)
    ensures |CloseMatches(lex, w)| > 0 <==> exists x :: x in lex.words && 5 * lex.matching(x, w) >= 2 * (|x| + |w|)
  {
    var c := CloseMatches(lex, w);
    if |c| > 0 {
      assert c != {};
      var x :| x in c;
      assert x in lex.words && 5 * lex.matching(x, w) >= 2 * (|x| + |w|);
    }
    if exists x :: x in lex.words && 5 * lex.matching(x, w) >= 2 * (|x| + |w|) {
      var x :| x in lex.words && 5 * lex.matching(x, w) >= 2 * (|x| + |w|);
      assert x in c;
    }
  }

  /** A word is valid when its lower-case form is in the dictionary or close to some dictionary word. */
  function IsValidWord(lex: Lexicon, word: string): (r: bool)
    ensures r <==> (Lower(word) in lex.words
                    || exists x :: x in lex.words && 5 * lex.matching(x, Lower(word)) >= 2 * (|x| + |Lower(word)|))
  {
    var w := Lower(word);
    CloseMatchesNonEmpty(lex, w);
    w in lex.words || |CloseMatches(lex, w)| > 0
  }

  /** The number of tokens that are valid words. */
  function CountValid(lex: Lexicon, tokens: seq<string>): (n: nat)
    ensures n <= |tokens|
  {
    if tokens == [] then 0
    else (if IsValidWord(lex, tokens[0]) then 1 else 0) + CountValid(lex, tokens[1..])
  }

  /** The source's share test `valid_count / len(tokens) < 0.3`, float division taken over the rationals. */
  predicate ShareBelow(valid: nat, total: nat)
    requires total > 0
  {
    (valid as real) / (total as real) < 0.3
  }

  /** The gibberish test, with the 30% share compared on integers. */
  function IsGibberish(lex: Lexicon, text: string): bool
  {
    if |text| < 5 then true
    else
      var tokens := lex.tokenize(text);
      if tokens == [] then true
      else 10 * CountValid(lex, tokens) < 3 * |tokens|
  }

  /** The integer test is the source's: short text, no tokens, or fewer than 30% valid tokens. */
  lemma GibberishExactly(lex: Lexicon, text: string)
    ensures IsGibberish(lex, text) <==>
              (|text| < 5 || lex.tokenize(text) == []
               || ShareBelow(CountValid(lex, lex.tokenize(text)), |lex.tokenize(text)|))
  {
    var tokens := lex.tokenize(text);
    if |text| >= 5 && tokens != [] {
      var v, n := CountValid(lex, tokens), |tokens|;
      QuotientAtLeast(v as real, n as real, 0.3);
    }
  }

  datatype Rejection = EmptyResponse | TooShort | Gibberish | TooManyResponses

  /** The `detail` text the server puts in its error response. */
  function Detail(e: Rejection): string
  {
    match e
    case EmptyResponse => "Response cannot be empty."
    case TooShort => "Response too short. Please provide more details."
    case Gibberish => "Your response seems like gibberish. Please provide a meaningful answer."
    case TooManyResponses => "Too many responses provided."
  }

  /** The client can tell the reasons apart: different rejections carry different details. */
  lemma DetailIdentifiesRejection(e1: Rejection, e2: Rejection)
    ensures Detail(e1) == Detail(e2) ==> e1 == e2
  {
    assert |Detail(EmptyResponse)| == 25 && |Detail(TooShort)| == 48;
    assert |Detail(Gibberish)| == 71 && |Detail(TooManyResponses)| == 28;
  }

  /** The stripped answer, or the first rule it breaks. */
  function ValidateAnswer(lex: Lexicon, answer: string): (r: Result<string, Rejection>)
    ensures r.Ok? ==> r.value == PyStrip(answer) && |r.value| >= 5 && !IsGibberish(lex, r.value)
    ensures r == Err(EmptyResponse) <==> AllOf(answer, IsPySpace)
    ensures r == Err(TooShort) <==> 1 <= |PyStrip(answer)| < 5
    ensures r == Err(Gibberish) <==> |PyStrip(answer)| >= 5 && IsGibberish(lex, PyStrip(answer))
    ensures r.Err? ==> r.error != TooManyResponses
  {
    StripEmpty(answer, IsPySpace);
    var clean := PyStrip(answer);
    if clean == "" then Err(EmptyResponse)
    else if |clean| < 5 then Err(TooShort)
    else if IsGibberish(lex, clean) then Err(Gibberish)
    else Ok(clean)
  }

  /** A stripped answer of one to four characters is turned away as too short whatever the dictionary. */
  lemma ShortAnswerRejected(lex: Lexicon, answer: string)
    requires 1 <= |PyStrip(answer)| <= 4
    ensures ValidateAnswer(lex, answer) == Err(TooShort)
  {
  }

  const Questions: seq<string> := [
    "How do you prefer to gather information? Provide examples.",
    "Do you learn better with pictures, diagrams, or verbal explanations? Why?",
    "When solving problems, do you prefer experimenting or thinking through the problem? Explain.",
    "Do you prefer learning step-by-step or understanding the big picture first? Elaborate."
  ]

  /** The classifier's output for the four answers: one class index per answer. */
  type Prediction = p: seq<nat> | |p| == 4 witness [0, 0, 0, 0]

  /** The four learning-style axes in the classifier's output order. */
  const Axes: seq<(string, string)> := [
    ("Sensing", "Intuitive"),
    ("Visual", "Verbal"),
    ("Active", "Reflective"),
    ("Sequential", "Global")
  ]

  /** The eight labels are pairwise distinct. */
  lemma AxesDistinct()
    ensures forall i :: 0 <= i < 4 ==> Axes[i].0 != Axes[i].1
    ensures forall i, j :: 0 <= i < 4 && 0 <= j < 4 && i != j ==>
              Axes[i].0 != Axes[j].0 && Axes[i].0 != Axes[j].1 && Axes[i].1 != Axes[j].0 && Axes[i].1 != Axes[j].1
  {
    assert "Visual"[1] != "Verbal"[1];
    assert "Visual"[0] != "Active"[0] && "Visual"[0] != "Global"[0];
    assert "Verbal"[0] != "Active"[0] && "Verbal"[0] != "Global"[0];
    assert "Active"[0] != "Global"[0];
  }

  /** The label chosen on axis i: the first of the pair when the class is 1, else the second. */
  function Label(p: Prediction, i: nat): string
    requires i < 4
  {
    if p[i] == 1 then Axes[i].0 else Axes[i].1
  }

  /** The keys of the result object, in the order the comprehension inserts them. */
  function ResultKeys(p: Prediction): seq<string>
  {
    [Label(p, 0), Label(p, 1), Label(p, 2), Label(p, 3)]
  }

  /** The dictionary comprehension over the four axes, written out in insertion order. */
  function Results(p: Prediction): map<string, nat>
  {
    map[Label(p, 0) := p[0]][Label(p, 1) := p[1]][Label(p, 2) := p[2]][Label(p, 3) := p[3]]
  }

  /** Labels of different axes differ. */
  lemma LabelsDistinct(p: Prediction)
    ensures forall i, j :: 0 <= i < j < 4 ==> Label(p, i) != Label(p, j)
  {
    AxesDistinct();
  }

  /** Four updates of the empty map with distinct keys give a map of exactly those four entries. */
  lemma FourEntries(k0: string, k1: string, k2: string, k3: string, v0: nat, v1: nat, v2: nat, v3: nat)
    requires k0 != k1 && k0 != k2 && k0 != k3 && k1 != k2 && k1 != k3 && k2 != k3
    ensures var m := map[k0 := v0][k1 := v1][k2 := v2][k3 := v3];
            m.Keys == {k0, k1, k2, k3} && |m.Keys| == 4
            && m[k0] == v0 && m[k1] == v1 && m[k2] == v2 && m[k3] == v3
  {
    var m := map[k0 := v0][k1 := v1][k2 := v2][k3 := v3];
    assert m.Keys == {k0, k1, k2, k3};
    assert |{k0, k1}| == 2;
    assert |{k0, k1, k2}| == 3 by { assert {k0, k1, k2} == {k0, k1} + {k2}; }
    assert |{k0, k1, k2, k3}| == 4 by { assert {k0, k1, k2, k3} == {k0, k1, k2} + {k3}; }
  }

  /** The keys of the result are exactly the four chosen labels, each mapped to its axis's class. */
  lemma ResultsKeys(p: Prediction)
    ensures |Results(p).Keys| == 4
    ensures forall k :: k in Results(p) <==> k in ResultKeys(p)
    ensures forall i :: 0 <= i < 4 ==> Results(p)[ResultKeys(p)[i]] == p[i]
  {
    LabelsDistinct(p);
    var k0, k1, k2, k3 := Label(p, 0), Label(p, 1), Label(p, 2), Label(p, 3);
    FourEntries(k0, k1, k2, k3, p[0], p[1], p[2], p[3]);
    assert ResultKeys(p) == [k0, k1, k2, k3];
  }

  /** The label chosen on axis j is neither label of another axis i. */
  lemma OtherAxisLabel(p: Prediction, i: nat, j: nat)
    requires i < 4 && j < 4 && i != j
    ensures Label(p, j) != Axes[i].0 && Label(p, j) != Axes[i].1
  {
    AxesDistinct();
    assert Label(p, j) == Axes[j].0 || Label(p, j) == Axes[j].1;
  }

  /** On axis i the first label is a key exactly when the class is 1, the second exactly when it is not. */
  lemma ResultsOnAxis(p: Prediction, i: nat)
    requires i < 4
    ensures Axes[i].0 in Results(p) <==> p[i] == 1
    ensures Axes[i].1 in Results(p) <==> p[i] != 1
  {
    ResultsKeys(p);
    var keys := ResultKeys(p);
    var first, second := Axes[i].0, Axes[i].1;
    forall j | 0 <= j < 4 && j != i
      ensures keys[j] != first && keys[j] != second
    {
      OtherAxisLabel(p, i, j);
    }
    assert keys[i] == (if p[i] == 1 then first else second);
    assert first != second by {
      AxesDistinct();
    }
    assert first in keys <==> keys[i] == first;
    assert second in keys <==> keys[i] == second;
  }

  datatype Reply =
    | NextQuestion(question: string, responses: seq<string>)
    | Complete(learningStyle: map<string, nat>, message: string, responses: seq<string>)

  /** GET /start/: the first question and no responses yet. */
  function StartConversation(): (r: Reply)
    ensures r.NextQuestion? && r.question == Questions[0] && r.responses == []
  {
    NextQuestion(Questions[0], [])
  }

  /**
   * POST /answer/: validate the new answer, append it to the caller's earlier responses
   * (taken as given), then ask the next question, classify after the fourth, or refuse.
   */
  function ProcessAnswer(lex: Lexicon, predict: seq<string> -> Prediction, responses: seq<string>, newAnswer: string)
    : (r: Result<Reply, Rejection>)
    ensures ValidateAnswer(lex, newAnswer).Err? ==> r == Err(ValidateAnswer(lex, newAnswer).error)
    ensures r.Ok? ==> r.value.responses == responses + [PyStrip(newAnswer)]
    ensures ValidateAnswer(lex, newAnswer).Ok? ==>
              (|responses| + 1 < 4 <==> r.Ok? && r.value.NextQuestion?)
    ensures r.Ok? && r.value.NextQuestion? ==> r.value.question == Questions[|responses| + 1]
    ensures ValidateAnswer(lex, newAnswer).Ok? ==>
              (|responses| + 1 == 4 <==> r.Ok? && r.value.Complete?)
    ensures r.Ok? && r.value.Complete? ==>
              r.value.message == "Test complete." && r.value.learningStyle == Results(predict(r.value.responses))
    ensures ValidateAnswer(lex, newAnswer).Ok? ==> (|responses| + 1 > 4 <==> r == Err(TooManyResponses))
  {
    match ValidateAnswer(lex, newAnswer)
    case Err(e) => Err(e)
    case Ok(valid) =>
      var newResponses := responses + [valid];
      var k := |newResponses|;
      if k < |Questions| then Ok(NextQuestion(Questions[k], newResponses))
      else if k == |Questions| then Ok(Complete(Results(predict(newResponses)), "Test complete.", newResponses))
      else Err(TooManyResponses)
  }

  /** An HTTP response: its status code and either the reply object or the error's `detail`. */
  datatype Response = Response(status: nat, body: Result<Reply, string>)

  /**
   * POST /answer/ as the client sees it: the reply with status 200, or, for every
   * HTTPException the handler raises, status 400 with the rejection's detail. An answer is
   * refused exactly when its stripped text is short or gibberish, or four responses came
   * with it.
   */
  function AnswerEndpoint(lex: Lexicon, predict: seq<string> -> Prediction, responses: seq<string>, newAnswer: string)
    : (r: Response)
    ensures r.status == 200 || r.status == 400
    ensures r.status == 400 <==> |PyStrip(newAnswer)| < 5 || IsGibberish(lex, PyStrip(newAnswer)) || |responses| >= 4
    ensures r.status == 200 <==> r.body.Ok?
    ensures r.body.Ok? ==> ProcessAnswer(lex, predict, responses, newAnswer) == Ok(r.body.value)
    ensures r.body.Err? ==> exists e :: ProcessAnswer(lex, predict, responses, newAnswer) == Err(e) && r.body.error == Detail(e)
  {
    StripEmpty(newAnswer, IsPySpace);
    match ProcessAnswer(lex, predict, responses, newAnswer)
    case Ok(reply) => Response(200, Ok(reply))
    case Err(e) => Response(400, Err(Detail(e)))
  }

  /** An answer the validator refuses is refused with that reason even when too many responses came with it. */
  lemma ValidationFirst(lex: Lexicon, predict: seq<string> -> Prediction, responses: seq<string>, newAnswer: string)
    requires |responses| >= 4
    requires AllOf(newAnswer, IsPySpace)
    ensures ProcessAnswer(lex, predict, responses, newAnswer) == Err(EmptyResponse)
  {
  }

  /** An accepted answer before the fourth brings the next question and the extended list. */
  lemma AcceptedBeforeLast(lex: Lexicon, predict: seq<string> -> Prediction, responses: seq<string>, answer: string)
    requires ValidateAnswer(lex, answer).Ok? && |responses| < 3
    ensures ProcessAnswer(lex, predict, responses, answer)
            == Ok(NextQuestion(Questions[|responses| + 1], responses + [PyStrip(answer)]))
  {
  }

  /** The fourth accepted answer completes the test with the classification of all four. */
  lemma AcceptedLast(lex: Lexicon, predict: seq<string> -> Prediction, responses: seq<string>, answer: string)
    requires ValidateAnswer(lex, answer).Ok? && |responses| == 3
    ensures ProcessAnswer(lex, predict, responses, answer)
            == Ok(Complete(Results(predict(responses + [PyStrip(answer)])), "Test complete.", responses + [PyStrip(answer)]))
  {
  }

  /**
   * A whole conversation: from the start, four accepted answers lead through questions 2, 3
   * and 4 to the classification of exactly the four stripped answers.
   */
  lemma FullConversation(lex: Lexicon, predict: seq<string> -> Prediction, a0: string, a1: string, a2: string, a3: string)
    requires ValidateAnswer(lex, a0).Ok? && ValidateAnswer(lex, a1).Ok?
    requires ValidateAnswer(lex, a2).Ok? && ValidateAnswer(lex, a3).Ok?
    ensures var s1 := StartConversation().responses + [PyStrip(a0)];
            var s2 := s1 + [PyStrip(a1)];
            var s3 := s2 + [PyStrip(a2)];
            var s4 := s3 + [PyStrip(a3)];
            ProcessAnswer(lex, predict, StartConversation().responses, a0) == Ok(NextQuestion(Questions[1], s1))
            && ProcessAnswer(lex, predict, s1, a1) == Ok(NextQuestion(Questions[2], s2))
            && ProcessAnswer(lex, predict, s2, a2) == Ok(NextQuestion(Questions[3], s3))
            && ProcessAnswer(lex, predict, s3, a3) == Ok(Complete(Results(predict(s4)), "Test complete.", s4))
  {
    var s1 := [PyStrip(a0)];
    var s2 := s1 + [PyStrip(a1)];
    var s3 := s2 + [PyStrip(a2)];
    assert StartConversation().responses == [];
    AcceptedBeforeLast(lex, predict, [], a0);
    AcceptedBeforeLast(lex, predict, s1, a1);
    AcceptedBeforeLast(lex, predict, s2, a2);
    AcceptedLast(lex, predict, s3, a3);
  }
}
