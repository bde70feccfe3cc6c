/**
 * The outlet survey: one question at a time, Previous / Next paging, an
 * answer map keyed by question id, and a submit that insists on every
 * question but the last (free-text) one.
 */
module Survey {
  import opened Wrappers

  datatype Kind = Radio | Text

  datatype Question = Question(id: string, kind: Kind, prompt: string)

  /** The screen's four questions: three multiple-choice, then optional free text. */
  const MockQuestions: seq<Question> := [
    Question("1", Radio, "Is competitor X's product visible on shelf?"),
    Question("2", Radio, "How would you rate the outlet's cleanliness?"),
    Question("3", Radio, "Is the outlet interested in new product launches?"),
    Question("4", Text, "Any additional feedback or observations?")
  ]

  /** A question counts as answered when its entry exists and is not the empty string. */
  predicate Answered(answers: map<string, string>, id: string)
  {
    id in answers && answers[id] != ""
  }

  /** The questions that must be answered: all but the last one. */
  function RequiredQuestions(questions: seq<Question>): (r: seq<Question>)
    ensures |questions| > 0 ==> |r| == |questions| - 1
    ensures questions == [] ==> r == []
    ensures forall i :: 0 <= i < |r| ==> r[i] == questions[i]
  {
    if questions == [] then [] else questions[..|questions| - 1]
  }

  /** The first question of `questions` without an answer, if any. */
  function FirstUnanswered(questions: seq<Question>, answers: map<string, string>): (r: Option<Question>)
    ensures r.Some? ==> r.value in questions && !Answered(answers, r.value.id)
    ensures r.None? <==> forall i :: 0 <= i < |questions| ==> Answered(answers, questions[i].id)
  {
    if questions == [] then None
    else if !Answered(answers, questions[0].id) then Some(questions[0])
    else
      var r := FirstUnanswered(questions[1..], answers);
      assert forall i :: 1 <= i < |questions| ==> questions[i] == questions[1..][i - 1];
      r
  }

  /** What `FirstUnanswered` finds comes before every other unanswered question. */
  lemma {:induction false} FirstUnansweredIsFirst(questions: seq<Question>, answers: map<string, string>, k: nat)
    requires k < |questions| && !Answered(answers, questions[k].id)
    ensures FirstUnanswered(questions, answers).Some?
    ensures exists j :: 0 <= j <= k && questions[j] == FirstUnanswered(questions, answers).value
    decreases k
  {
    if Answered(answers, questions[0].id) {
      FirstUnansweredIsFirst(questions[1..], answers, k - 1);
      var j :| 0 <= j <= k - 1 && questions[1..][j] == FirstUnanswered(questions[1..], answers).value;
      assert questions[j + 1] == FirstUnanswered(questions, answers).value;
    } else {
      assert questions[0] == FirstUnanswered(questions, answers).value;
    }
  }

  /** The submit guard: the survey is complete when every required question is answered. */
  predicate Complete(questions: seq<Question>, answers: map<string, string>)
  {
    FirstUnanswered(RequiredQuestions(questions), answers).None?
  }

  /** Complete exactly when each question but the last has a non-empty answer; the last one never matters. */
  lemma CompleteIff(questions: seq<Question>, answers: map<string, string>)
    ensures Complete(questions, answers) <==>
      forall i :: 0 <= i < |questions| - 1 ==> Answered(answers, questions[i].id)
  {
  }

  class SurveyScreen {
    const questions: seq<Question>
    var answers: map<string, string>
    var currentQuestion: nat

    /** The current index always names a question. */
    ghost predicate Valid()
      reads this
    {
      currentQuestion < |questions|
    }

    constructor (questions: seq<Question>)
      requires |questions| > 0
      ensures this.questions == questions && answers == map[] && currentQuestion == 0
      ensures Valid()
    {
      this.questions := questions;
      answers := map[];
      currentQuestion := 0;
    }

    /** The question on screen. */
    function Current(): (q: Question)
      requires Valid()
      reads this
      ensures q in questions
    {
      questions[currentQuestion]
    }

    /** Choosing an option, or typing in the text box, of question `id`. */
    method HandleAnswerChange(id: string, value: string)
      modifies this
      ensures answers == old(answers)[id := value]
      ensures forall k :: k != id ==> (k in answers <==> k in old(answers))
      ensures forall k :: k != id && k in answers ==> answers[k] == old(answers)[k]
      ensures currentQuestion == old(currentQuestion)
      ensures old(Valid()) ==> Valid()
      // answering the question on screen enables Next; clearing a multiple-choice answer disables it
      ensures old(Valid()) && id == old(Current()).id && value != "" ==> !NextDisabled()
      ensures old(Valid()) && id == old(Current()).id && value == "" && old(Current()).kind == Radio ==> NextDisabled()
      // answers to other questions do not affect Next
      ensures old(Valid()) && id != old(Current()).id ==> NextDisabled() == old(NextDisabled())
    {
      answers := answers[id := value];
    }

    /** Next: one question forward, but never past the last. */
    method HandleNext()
      requires Valid()
      modifies this
      ensures !old(ShowsSubmit()) ==> currentQuestion == old(currentQuestion) + 1
      ensures old(ShowsSubmit()) ==> currentQuestion == old(currentQuestion) == |questions| - 1
      ensures answers == old(answers)
      ensures Valid()
    {
      if currentQuestion < |questions| - 1 {
        currentQuestion := currentQuestion + 1;
      }
    }

    /** Previous: one question back, but never before the first. */
    method HandlePrevious()
      requires Valid()
      modifies this
      ensures old(ShowsPrevious()) ==> currentQuestion + 1 == old(currentQuestion)
      ensures !old(ShowsPrevious()) ==> currentQuestion == old(currentQuestion) == 0
      ensures answers == old(answers)
      ensures Valid()
    {
      if currentQuestion > 0 {
        currentQuestion := currentQuestion - 1;
      }
    }

    /**
     * Submit: refused (an "Incomplete Survey" toast) when some question but
     * the last is unanswered; otherwise the survey is completed and the
     * screen closes. The answers and the position are not changed either way.
     */
    method HandleSubmit() returns (completed: bool)
      ensures completed <==> forall i :: 0 <= i < |questions| - 1 ==> Answered(answers, questions[i].id)
      ensures !completed ==> exists i :: 0 <= i < |questions| - 1 && !Answered(answers, questions[i].id)
    {
      var unanswered := FirstUnanswered(RequiredQuestions(questions), answers);
      CompleteIff(questions, answers);
      completed := unanswered.None?;
    }

    /** Whether the Previous button is shown. */
    predicate ShowsPrevious()
      reads this
    {
      currentQuestion > 0
    }

    /** Whether Submit is shown in place of Next. */
    predicate ShowsSubmit()
      reads this
    {
      !(currentQuestion < |questions| - 1)
    }

    /** Whether the Next button is greyed out on the question on screen. */
    predicate NextDisabled()
      requires Valid()
      reads this
    {
      NextDisabledOn(Current(), answers)
    }
  }

  /** Next is greyed out on a multiple-choice question that has no answer yet. */
  predicate NextDisabledOn(q: Question, answers: map<string, string>)
  {
    !Answered(answers, q.id) && q.kind == Radio
  }

  /**
   * When every required question is multiple-choice, the Next guard and the
   * submit guard agree: the survey can be submitted exactly when Next is
   * enabled on every question before the last.
   */
  lemma NextGuardMatchesSubmit(questions: seq<Question>, answers: map<string, string>)
    requires forall i :: 0 <= i < |questions| - 1 ==> questions[i].kind == Radio
    ensures Complete(questions, answers) <==>
      forall i :: 0 <= i < |questions| - 1 ==> !NextDisabledOn(questions[i], answers)
  {
    CompleteIff(questions, answers);
  }

  /** On the screen's own questions, answering 1 to 3 is enough; the feedback box may stay empty. */
  lemma MockSurveyNeedsFirstThree(answers: map<string, string>)
    ensures Complete(MockQuestions, answers) <==>
      Answered(answers, "1") && Answered(answers, "2") && Answered(answers, "3")
    ensures Complete(MockQuestions, answers) <==>
      forall i :: 0 <= i < 3 ==> !NextDisabledOn(MockQuestions[i], answers)
  {
    CompleteIff(MockQuestions, answers);
    NextGuardMatchesSubmit(MockQuestions, answers);
    assert MockQuestions[0].id == "1" && MockQuestions[1].id == "2" && MockQuestions[2].id == "3";
  }

  /** With questions 1 and 2 answered, choosing an option for question 3 completes the survey; clearing it does not. */
  lemma AnswerThenComplete(answers: map<string, string>)
    requires Answered(answers, "1") && Answered(answers, "2")
    ensures Complete(MockQuestions, answers["3" := "Very interested"])
    ensures !Complete(MockQuestions, answers["3" := ""])
  {
    MockSurveyNeedsFirstThree(answers["3" := "Very interested"]);
    MockSurveyNeedsFirstThree(answers["3" := ""]);
  }
}
