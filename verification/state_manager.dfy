/** The mutable interview record (interview/state_manager.py). Each key of the
    source's `self.state` dictionary is a field of the `InterviewState`
    record, which the class holds in its one mutable field. The source's controller
    also calls `mark_interview_finished` and `is_interview_finished`, which the
    class does not define; the model adds the `interviewFinished` field they need. */
module StateManager {
  import opened Text

  datatype Option<T> = None | Some(value: T)

  /** One `{"question": ..., "answer": ...}` entry of `asked_questions`. */
  datatype QA = QA(question: string, answer: string)

  /** The interview record as a value. */
  datatype InterviewState = InterviewState(
    currentStep: string,
    candidateInfo: map<string, string>,
    firstName: string,
    techStack: seq<string>,
    currentTech: Option<string>,
    questionsAsked: nat,
    askedQuestions: map<string, seq<QA>>,
    currentQuestion: string,
    techQuestions: map<string, seq<string>>,
    interviewComplete: bool,
    interviewFinished: bool)

  /** The record `reset` installs. */
  const INITIAL: InterviewState :=
    InterviewState("name", map[], "", [], None, 0, map[], "", map[], false, false)

  /** The first name `store_candidate_info` derives from the name answer: the
      first whitespace-separated word, or the stripped answer when it has none. */
  function FirstNameOf(value: string): (first: string)
    ensures !AllSpace(value) ==> IsWord(first) && first == Words(Strip(value))[0]
    ensures !AllSpace(value) ==>
              var name := Strip(value);
              StartsWith(name, first) && (|first| == |name| || IsSpace(name[|first|]))
    ensures AllSpace(value) ==> first == ""
  {
    var parts := Words(Strip(value));
    if parts != [] then
      assert TrimLeft(Strip(value)) == Strip(value);
      parts[0]
    else Strip(value)
  }

  /** `dict.get(key, [])` on the per-technology dictionaries. */
  function AskedFor(s: InterviewState, tech: string): seq<QA> {
    if tech in s.askedQuestions then s.askedQuestions[tech] else []
  }

  function TechQuestionsFor(s: InterviewState, tech: string): seq<string> {
    if tech in s.techQuestions then s.techQuestions[tech] else []
  }

  /** The record after `store_candidate_info(step, value)`. */
  function WithCandidateInfo(s: InterviewState, step: string, value: string): (r: InterviewState)
    ensures r.candidateInfo == s.candidateInfo[step := value]
    ensures step != "name" ==> r == s.(candidateInfo := r.candidateInfo)
    ensures step == "name" ==> r == s.(candidateInfo := r.candidateInfo, firstName := FirstNameOf(value))
  {
    var s1 := s.(candidateInfo := s.candidateInfo[step := value]);
    if step == "name" then s1.(firstName := FirstNameOf(value)) else s1
  }

  /** The record after `store_answer(tech, question, answer)`. */
  function WithAnswer(s: InterviewState, tech: string, question: string, answer: string): (r: InterviewState)
    ensures AskedFor(r, tech) == AskedFor(s, tech) + [QA(question, answer)]
    ensures forall t :: t != tech ==> AskedFor(r, t) == AskedFor(s, t)
    ensures r == s.(askedQuestions := r.askedQuestions)
  {
    s.(askedQuestions := s.askedQuestions[tech := AskedFor(s, tech) + [QA(question, answer)]])
  }

  /** `InterviewStateManager`: the record lives in the one field `state`, as
      the source keeps it in the one dictionary `self.state`. */
  class InterviewStateManager {
    var state: InterviewState

    constructor ()
      ensures state == INITIAL
    {
      state := INITIAL;
    }

    /** `reset`: back to the initial record, whatever the record was. */
    method Reset()
      modifies this
      ensures state == INITIAL
    {
      state := InterviewState("name", map[], "", [], None, 0, map[], "", map[], false, false);
    }

    method GetCurrentStep() returns (step: string)
      ensures step == state.currentStep
    {
      step := state.currentStep;
    }

    method UpdateCurrentStep(step: string)
      modifies this
      ensures state == old(state).(currentStep := step)
    {
      state := state.(currentStep := step);
    }

    /** `store_candidate_info`: records the answer under its step; only the
        name step also refreshes the first name. */
    method StoreCandidateInfo(step: string, value: string)
      modifies this
      ensures state == WithCandidateInfo(old(state), step, value)
    {
      state := state.(candidateInfo := state.candidateInfo[step := value]);
      if step == "name" {
        var nameParts := Words(Strip(value));
        if nameParts != [] {
          state := state.(firstName := nameParts[0]);
        } else {
          state := state.(firstName := Strip(value));
        }
      }
    }

    method GetCandidateInfo() returns (info: map<string, string>)
      ensures info == state.candidateInfo
    {
      info := state.candidateInfo;
    }

    method GetFirstName() returns (name: string)
      ensures name == state.firstName
    {
      name := state.firstName;
    }

    method SetTechStack(technologies: seq<string>)
      modifies this
      ensures state == old(state).(techStack := technologies)
    {
      state := state.(techStack := technologies);
    }

    method GetTechStack() returns (technologies: seq<string>)
      ensures technologies == state.techStack
    {
      technologies := state.techStack;
    }

    /** `set_current_tech`: a new current technology starts with no questions asked. */
    method SetCurrentTech(tech: string)
      modifies this
      ensures state == old(state).(currentTech := Some(tech), questionsAsked := 0)
    {
      state := state.(currentTech := Some(tech));
      state := state.(questionsAsked := 0);
    }

    method GetCurrentTech() returns (tech: Option<string>)
      ensures tech == state.currentTech
    {
      tech := state.currentTech;
    }

    /** `increment_questions_asked`: one more question, returning the new count. */
    method IncrementQuestionsAsked() returns (count: nat)
      modifies this
      ensures count == old(state.questionsAsked) + 1
      ensures state == old(state).(questionsAsked := count)
    {
      state := state.(questionsAsked := state.questionsAsked + 1);
      count := state.questionsAsked;
    }

    method GetQuestionsAskedCount() returns (count: nat)
      ensures count == state.questionsAsked
    {
      count := state.questionsAsked;
    }

    method StoreQuestion(question: string)
      modifies this
      ensures state == old(state).(currentQuestion := question)
    {
      state := state.(currentQuestion := question);
    }

    method GetCurrentQuestion() returns (question: string)
      ensures question == state.currentQuestion
    {
      question := state.currentQuestion;
    }

    method StoreTechQuestions(questions: map<string, seq<string>>)
      modifies this
      ensures state == old(state).(techQuestions := questions)
    {
      state := state.(techQuestions := questions);
    }

    /** `get_tech_questions(tech)` for a non-empty `tech`: the list stored for
        it, or `[]` when it has none. */
    method GetTechQuestions(tech: string) returns (questions: seq<string>)
      requires tech != ""
      ensures tech !in state.techQuestions ==> questions == []
      ensures tech in state.techQuestions ==> questions == state.techQuestions[tech]
    {
      if tech in state.techQuestions {
        questions := state.techQuestions[tech];
      } else {
        questions := [];
      }
    }

    /** `get_tech_questions()` with no technology: the whole dictionary. */
    method GetAllTechQuestions() returns (questions: map<string, seq<string>>)
      ensures questions == state.techQuestions
    {
      questions := state.techQuestions;
    }

    /** `store_answer`: appends one pair to the technology's list, creating it
        when absent; the lists of other technologies are untouched. */
    method StoreAnswer(tech: string, question: string, answer: string)
      modifies this
      ensures state == WithAnswer(old(state), tech, question, answer)
    {
      if tech !in state.askedQuestions {
        state := state.(askedQuestions := state.askedQuestions[tech := []]);
      }
      var pairs := state.askedQuestions[tech] + [QA(question, answer)];
      state := state.(askedQuestions := state.askedQuestions[tech := pairs]);
    }

    /** `get_asked_questions(tech)` for a non-empty `tech`: its pairs, or `[]`. */
    method GetAskedQuestions(tech: string) returns (pairs: seq<QA>)
      requires tech != ""
      ensures tech !in state.askedQuestions ==> pairs == []
      ensures tech in state.askedQuestions ==> pairs == state.askedQuestions[tech]
    {
      if tech in state.askedQuestions {
        pairs := state.askedQuestions[tech];
      } else {
        pairs := [];
      }
    }

    /** `get_asked_questions()` with no technology: the whole dictionary. */
    method GetAllAskedQuestions() returns (pairs: map<string, seq<QA>>)
      ensures pairs == state.askedQuestions
    {
      pairs := state.askedQuestions;
    }

    /** `mark_interview_complete`. */
    method MarkInterviewComplete()
      modifies this
      ensures state == old(state).(interviewComplete := true)
    {
      state := state.(interviewComplete := true);
    }

    method IsInterviewComplete() returns (complete: bool)
      ensures complete == state.interviewComplete
    {
      complete := state.interviewComplete;
    }

    /** The finished flag the controller expects: set on exit and after the
        closing message. */
    method MarkInterviewFinished()
      modifies this
      ensures state == old(state).(interviewFinished := true)
    {
      state := state.(interviewFinished := true);
    }

    method IsInterviewFinished() returns (finished: bool)
      ensures finished == state.interviewFinished
    {
      finished := state.interviewFinished;
    }
  }

  /** Resetting twice leaves the same record as resetting once. */
  method ResetTwice(m: InterviewStateManager)
    modifies m
    ensures m.state == INITIAL
  {
    m.Reset();
    m.Reset();
  }

  /** Marking the interview complete twice is the same as marking it once. */
  method MarkCompleteTwice(m: InterviewStateManager)
    modifies m
    ensures m.state == old(m.state).(interviewComplete := true)
  {
    m.MarkInterviewComplete();
    m.MarkInterviewComplete();
  }
}
