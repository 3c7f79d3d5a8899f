/**
 * The quiz of quiz.js: a `Question` holds its text, its choices and its
 * answer; a `Quiz` walks through a list of questions, keeping a score and
 * the index of the current question. Answers and choices are strings.
 */
module Quiz {
  import opened Options

  class Question {
    const text: string
    const choices: seq<string>
    const answer: string

    constructor(text: string, choices: seq<string>, answer: string)
      ensures this.text == text && this.choices == choices && this.answer == answer
    {
      this.text := text;
      this.choices := choices;
      this.answer := answer;
    }

    /** `isCorrectAnswer`: strict equality with the stored answer. */
    predicate IsCorrectAnswer(choice: string)
    {
      answer == choice
    }

    /** The stored answer, and nothing else, is correct. */
    lemma OnlyAnswerIsCorrect(choice: string)
      ensures IsCorrectAnswer(answer)
      ensures IsCorrectAnswer(choice) <==> choice == answer
      ensures forall other :: other != answer ==> !IsCorrectAnswer(other)
    {
    }
  }

  class Quiz {
    var questions: seq<Question>
    var score: int
    var questionIndex: int

    constructor(questions: seq<Question>)
      ensures this.questions == questions && score == 0 && questionIndex == 0
    {
      this.questions := questions;
      score := 0;
      questionIndex := 0;
    }

    /**
     * `getCurrentQuestion`: the question at `questionIndex`; past the end
     * of the list the source yields `undefined`, here `None`.
     */
    method GetCurrentQuestion() returns (current: Option<Question>)
      ensures 0 <= questionIndex < |questions| ==> current == Some(questions[questionIndex])
      ensures !(0 <= questionIndex < |questions|) ==> current == None
    {
      if 0 <= questionIndex < |questions| {
        current := Some(questions[questionIndex]);
      } else {
        current := None;
      }
    }

    /** `guess`: its body is empty, so a guess changes nothing, not even the score. */
    method Guess(answer: string)
      ensures score == old(score) && questionIndex == old(questionIndex) && questions == old(questions)
    {
    }

    /** `nextQuestion`: moves to the next question, without any bound check. */
    method NextQuestion()
      modifies this
      ensures questionIndex == old(questionIndex) + 1
      ensures score == old(score) && questions == old(questions)
    {
      questionIndex := questionIndex + 1;
    }
  }
}
