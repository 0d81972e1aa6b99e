/** How the gateway marks the answer to a task. */
module Answers {

  /** Like strings.Split at commas: the empty text is one empty part. */
  function Split(s: string): (parts: seq<string>)
    ensures parts != []
  {
    if s == "" then [""]
    else
      var rest := Split(s[1..]);
      if s[0] == ',' then [""] + rest else [[s[0]] + rest[0]] + rest[1..]
  }

  function Join(parts: seq<string>): string
    requires parts != []
  {
    if |parts| == 1 then parts[0] else parts[0] + "," + Join(parts[1..])
  }

  lemma JoinComma(rest: seq<string>)
    requires rest != []
    ensures Join([""] + rest) == "," + Join(rest)
  {
    assert ([""] + rest)[1..] == rest;
  }

  lemma JoinChar(c: char, rest: seq<string>)
    requires rest != []
    ensures Join([[c] + rest[0]] + rest[1..]) == [c] + Join(rest)
  {
    var parts := [[c] + rest[0]] + rest[1..];
    assert parts[1..] == rest[1..];
    if |rest| > 1 {
      assert Join(parts) == ([c] + rest[0]) + "," + Join(rest[1..]);
    }
  }

  lemma {:induction false} JoinSplit(s: string)
    ensures Join(Split(s)) == s
  {
    if s != "" {
      JoinSplit(s[1..]);
      if s[0] == ',' {
        JoinComma(Split(s[1..]));
      } else {
        JoinChar(s[0], Split(s[1..]));
      }
    }
  }

  /** Part by part, and yet an answer is right exactly when it is the stored text, character for character. */
  method VerifyAnswer(userAnswer: string, answer: string) returns (correct: bool)
    ensures correct <==> userAnswer == answer
  {
    correct := true;
    var answers, userAnswers := Split(answer), Split(userAnswer);
    JoinSplit(answer);
    JoinSplit(userAnswer);
    if |answers| != |userAnswers| {
      return false;
    }
    for i := 0 to |answers|
      invariant correct && answers[..i] == userAnswers[..i]
    {
      if answers[i] != userAnswers[i] {
        correct := false;
        break;
      }
    }
    assert correct ==> answers[..|answers|] == answers && userAnswers[..|answers|] == userAnswers;
  }
}
