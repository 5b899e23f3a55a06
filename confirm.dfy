/**
 * The yes/no confirmation prompt (`confirm` in imgres.py). Keyboard input is
 * a sequence of answer lines; running out of lines is the end of input, on
 * which `input()` raises and nothing is returned.
 */
module Confirmation {
  import opened Wrappers

  const DefaultPrompt: string := "Confirm"
  const YesDefaultSuffix: string := " [y]|n: "
  const NoDefaultSuffix: string := " [n]|y: "

  /** The text shown before each answer: the default choice is bracketed. */
  function PromptText(prompt: Option<string>, resp: bool): string {
    var base := if prompt.Some? then prompt.value else DefaultPrompt;
    base + if resp then YesDefaultSuffix else NoDefaultSuffix
  }

  /** Reads the bracketed default back from a prompt text, when it has one. */
  function PromptDefault(text: string): Option<bool> {
    if |text| < 8 then None
    else if text[|text| - 8..] == YesDefaultSuffix then Some(true)
    else if text[|text| - 8..] == NoDefaultSuffix then Some(false)
    else None
  }

  /** Reads the question back from a prompt text. */
  function PromptQuestion(text: string): string {
    if |text| < 8 then text else text[..|text| - 8]
  }

  /**
   * The prompt names the default it will use and keeps the caller's question
   * ("Confirm" when there is none).
   */
  lemma PromptRoundTrip(prompt: Option<string>, resp: bool)
    ensures PromptDefault(PromptText(prompt, resp)) == Some(resp)
    ensures PromptQuestion(PromptText(prompt, resp)) == prompt.GetOr(DefaultPrompt)
  {
    var text := PromptText(prompt, resp);
    var base := if prompt.Some? then prompt.value else DefaultPrompt;
    assert text[|text| - 8..] == if resp then YesDefaultSuffix else NoDefaultSuffix;
    assert text[..|text| - 8] == base;
  }

  /** How one answer line is taken. */
  datatype Reply = UseDefault | Yes | No | Retry

  function Classify(ans: string): Reply {
    if ans == "" then UseDefault
    else if ans == "y" || ans == "Y" then Yes
    else if ans == "n" || ans == "N" then No
    else Retry
  }

  /** An answer that ends the prompt loop. */
  predicate Decisive(ans: string) {
    Classify(ans) != Retry
  }

  /** The choice a decisive answer stands for. */
  function Meaning(ans: string, resp: bool): bool
    requires Decisive(ans)
  {
    match Classify(ans)
    case UseDefault => resp
    case Yes => true
    case No => false
  }

  /** What `confirm` returns on the given answer lines. */
  function ConfirmSpec(answers: seq<string>, resp: bool): Option<bool>
    decreases |answers|
  {
    if answers == [] then None
    else if Decisive(answers[0]) then Some(Meaning(answers[0], resp))
    else ConfirmSpec(answers[1..], resp)
  }

  /** How many answer lines `confirm` reads. */
  function AnswersRead(answers: seq<string>): (n: nat)
    ensures n <= |answers|
    decreases |answers|
  {
    if answers == [] then 0
    else if Decisive(answers[0]) then 1
    else 1 + AnswersRead(answers[1..])
  }

  /**
   * The result is decided by the first empty or y/Y/n/N answer alone, and the
   * reading stops right after it; with no such answer, every line is read
   * and nothing is returned.
   */
  lemma {:induction false} ConfirmDecidedByFirst(answers: seq<string>, resp: bool)
    ensures ConfirmSpec(answers, resp).None? <==> forall j :: 0 <= j < |answers| ==> !Decisive(answers[j])
    ensures ConfirmSpec(answers, resp).None? ==> AnswersRead(answers) == |answers|
    ensures ConfirmSpec(answers, resp).Some? ==>
      var k := AnswersRead(answers) - 1;
      0 <= k < |answers| && Decisive(answers[k]) &&
      (forall j :: 0 <= j < k ==> !Decisive(answers[j])) &&
      ConfirmSpec(answers, resp) == Some(Meaning(answers[k], resp))
    decreases |answers|
  {
    if answers != [] && !Decisive(answers[0]) {
      ConfirmDecidedByFirst(answers[1..], resp);
      forall j | 1 <= j < |answers| ensures answers[j] == answers[1..][j - 1] { }
    }
  }

  /** Lines after the deciding answer are never read. */
  lemma {:induction false} ConfirmIgnoresLaterAnswers(answers: seq<string>, later: seq<string>, resp: bool)
    requires ConfirmSpec(answers, resp).Some?
    ensures ConfirmSpec(answers + later, resp) == ConfirmSpec(answers, resp)
    ensures AnswersRead(answers + later) == AnswersRead(answers)
    decreases |answers|
  {
    assert (answers + later)[0] == answers[0];
    if !Decisive(answers[0]) {
      assert (answers + later)[1..] == answers[1..] + later;
      ConfirmIgnoresLaterAnswers(answers[1..], later, resp);
    }
  }

  /**
   * `confirm`: builds the prompt text, then reads lines until one is empty or
   * one of y, Y, n, N. Returns the choice, the number of lines read and the
   * prompt shown before each of them.
   */
  method Confirm(prompt: Option<string>, resp: bool, answers: seq<string>)
    returns (r: Option<bool>, used: nat, shown: string)
    ensures shown == PromptText(prompt, resp)
    ensures r == ConfirmSpec(answers, resp) && used == AnswersRead(answers)
    ensures r.Some? ==>
      0 < used <= |answers| && Decisive(answers[used - 1]) && r.value == Meaning(answers[used - 1], resp)
    ensures r.None? ==> used == |answers|
    ensures forall j :: 0 <= j < used - 1 ==> !Decisive(answers[j])
  {
    shown := if prompt.None? then DefaultPrompt else prompt.value;
    shown := shown + if resp then YesDefaultSuffix else NoDefaultSuffix;
    used := 0;
    while true
      invariant used <= |answers|
      invariant forall j :: 0 <= j < used ==> !Decisive(answers[j])
      invariant ConfirmSpec(answers, resp) == ConfirmSpec(answers[used..], resp)
      invariant AnswersRead(answers) == used + AnswersRead(answers[used..])
      decreases |answers| - used
    {
      if used == |answers| {
        return None, used, shown;
      }
      var ans := answers[used];
      used := used + 1;
      if ans == "" {
        return Some(resp), used, shown;
      }
      if ans != "y" && ans != "Y" && ans != "n" && ans != "N" {
        assert answers[used..] == answers[used - 1..][1..];
        continue;
      }
      if ans == "y" || ans == "Y" {
        return Some(true), used, shown;
      }
      if ans == "n" || ans == "N" {
        return Some(false), used, shown;
      }
    }
  }

  /** The three sessions in the doctest of `confirm`'s docstring. */
  lemma DoctestSessions()
    ensures PromptText(Some("Create Directory?"), true) == "Create Directory? [y]|n: "
    ensures PromptText(Some("Create Directory?"), false) == "Create Directory? [n]|y: "
    ensures ConfirmSpec([""], true) == Some(true)
    ensures ConfirmSpec([""], false) == Some(false)
    ensures ConfirmSpec(["y"], false) == Some(true)
    ensures ConfirmSpec(["maybe", "", "n"], false) == Some(false)
    ensures AnswersRead(["maybe", "", "n"]) == 2
  {
  }
}
