/** `ChatbotController` (chatbot_controller.py) as a class. Its own fields are
    the consent flags and the candidate id; the interview record lives in the
    state manager it owns. The database manager is replaced by `dbCalls`, the
    log of calls made to it, and the language model by the oracle `llm`. Each
    method is proved to do what the matching function of `Conversation` says,
    so the properties proved about those functions hold of the class. */
module Controller {
  import opened Text
  import opened TechParser
  import opened Validators
  import opened Llm
  import opened QuestionGenerator
  import opened StateManager
  import opened Prompts
  import opened Conversation
  import opened ConversationProperties

  class ChatbotController {
    const stateManager: InterviewStateManager
    const llm: Oracle
    /** The fixed replies; the constructor installs `PROMPTS`. */
    const texts: Texts
    var candidateId: Option<nat>
    var consentRequested: bool
    var consentGiven: bool
    var gdprIntroShown: bool
    /** The calls made to the database manager, oldest first. */
    var dbCalls: seq<DbCall>

    /** Everything a turn reads or changes, as a value. */
    function Current(): Session
      reads this, stateManager
    {
      Session(stateManager.state, gdprIntroShown, consentRequested, consentGiven, candidateId, dbCalls)
    }

    /** `__init__`: a fresh state manager, cleared consent flags, then `reset_chat`. */
    constructor (llm: Oracle)
      ensures this.llm == llm && texts == PROMPTS && fresh(stateManager)
      ensures Current() == NEW_SESSION && Inv(Current())
    {
      this.llm := llm;
      texts := PROMPTS;
      stateManager := new InterviewStateManager();
      candidateId := None;
      consentRequested := false;
      consentGiven := false;
      gdprIntroShown := false;
      dbCalls := [];
      new;
      ResetChat();
    }

    /** `get_initial_prompt`: opens the consent gate and greets. */
    method GetInitialPrompt() returns (prompt: string)
      modifies this
      ensures prompt == texts.greeting
      ensures Current() == Conversation.GetInitialPrompt(old(Current()))
      ensures Inv(old(Current())) ==> Inv(Current())
    {
      gdprIntroShown := true;
      prompt := texts.greeting;
    }

    /** `process_user_input`: one turn of the interview. */
    method ProcessUserInput(input: string, pick: nat) returns (reply: string)
      requires Inv(Current())
      modifies this, stateManager
      ensures Current() == Step(old(Current()), input, llm) && Inv(Current())
      ensures reply == Reply(old(Current()), input, llm, pick, texts)
    {
      StepKeepsInv(Current(), input, llm);
      if Lower(Strip(input)) == "exit" {
        stateManager.MarkInterviewFinished();
        return texts.exitMessage;
      }
      if Strip(input) == [] {
        return texts.emptyInput;
      }
      if gdprIntroShown && !consentRequested {
        consentRequested := true;
        var consentResponse := ProcessConsentResponse(input);
        if consentResponse.Some? {
          return consentResponse.value;
        }
        return texts.consentReprompt;
      }
      var currentStep := stateManager.GetCurrentStep();
      var validation := ValidateInput(currentStep, input);
      if validation.Invalid? {
        reply := llm(ValidationError(validation.fieldType, validation.error));
        if reply == [] {
          reply := validation.error;
        }
        return;
      }
      ghost var before := Current();
      StoreUserResponse(input);
      InvStore(before, input, llm);
      reply := GetNextResponse(input, pick);
    }

    /** `_process_consent_response`: a yes records consent; a yes or a no is
        answered, anything else is not a consent answer. */
    method ProcessConsentResponse(input: string) returns (response: Option<string>)
      modifies this
      ensures consentGiven == (old(consentGiven) || ConsentOf(input) == Consented)
      ensures response == if ConsentOf(input) == Unclear then None else Some(ConsentReply(input, texts))
      ensures candidateId == old(candidateId) && consentRequested == old(consentRequested)
      ensures gdprIntroShown == old(gdprIntroShown) && dbCalls == old(dbCalls)
    {
      var answer := Lower(input);
      if answer in CONSENT_YES {
        consentGiven := true;
        response := Some(texts.consentGiven);
      } else if answer in CONSENT_NO {
        response := Some(texts.consentDeclined);
      } else {
        response := None;
      }
    }

    /** `_store_user_response`. */
    method StoreUserResponse(input: string)
      requires Inv(Current())
      modifies this, stateManager
      ensures Current() == Conversation.StoreUserResponse(old(Current()), input, llm)
    {
      var currentStep := stateManager.GetCurrentStep();
      if currentStep in FLOW_KEYS {
        StoreProfileAnswer(input);
      } else if currentStep == TECHNICAL {
        StoreTechnicalAnswer(input);
      }
    }

    /** The information-gathering branch of `_store_user_response`: the
        answer is stored under the step, and the step advances along the
        flow; the last step, the tech stack, is parsed and starts the
        technical phase. */
    method StoreProfileAnswer(input: string)
      requires stateManager.state.currentStep in FLOW_KEYS
      modifies this, stateManager
      ensures Current() == Conversation.StoreProfileAnswer(old(Current()), input, llm)
    {
      var currentStep := stateManager.GetCurrentStep();
      FlowIndex(currentStep);
      if currentStep == "tech_stack" {
        StoreTechStack(input);
      } else {
        stateManager.StoreCandidateInfo(currentStep, input);
        var currentIndex := IndexOf(FLOW_KEYS, currentStep);
        stateManager.UpdateCurrentStep(FLOW_KEYS[currentIndex + 1]);
      }
    }

    /** The tech-stack step: the answer is stored and parsed, and, as the last
        step of the flow, it starts the technical phase. */
    method StoreTechStack(input: string)
      requires stateManager.state.currentStep == "tech_stack"
      modifies this, stateManager
      ensures Current() == Conversation.StoreProfileAnswer(old(Current()), input, llm)
    {
      FlowIndex("tech_stack");
      stateManager.StoreCandidateInfo("tech_stack", input);
      var technologies := ParseTechStack(input, MAX_TECHS);
      stateManager.SetTechStack(technologies);
      StartTechnicalPhase();
    }

    /** The end of the profile: questions are generated for the stack (or
        for `general`), the first technology becomes current, and a consenting
        candidate is created in the database. */
    method StartTechnicalPhase()
      modifies this, stateManager
      ensures Current() == Conversation.StartTechnicalPhase(old(Current()), llm)
    {
      var techStack := stateManager.GetTechStack();
      if techStack == [] {
        techStack := ["general"];
        stateManager.SetTechStack(techStack);
      }
      var techQuestions := GenerateTechQuestions(techStack, GenOracle(llm));
      stateManager.StoreTechQuestions(techQuestions);
      stateManager.UpdateCurrentStep(TECHNICAL);
      stateManager.SetCurrentTech(techStack[0]);
      if consentGiven {
        CreateCandidateRecord();
      }
    }

    /** The technical branch of `_store_user_response`. */
    method StoreTechnicalAnswer(input: string)
      requires stateManager.state.currentStep == TECHNICAL
      requires stateManager.state.currentTech.Some? && stateManager.state.currentTech.value in stateManager.state.techStack
      requires stateManager.state.questionsAsked < 3 && TechsNamed(stateManager.state)
      modifies this, stateManager
      ensures Current() == Conversation.StoreTechnicalAnswer(old(Current()), input)
    {
      ghost var before := Current();
      var currentTech := stateManager.GetCurrentTech();
      var currentQuestion := stateManager.GetCurrentQuestion();
      stateManager.StoreAnswer(currentTech.value, currentQuestion, input);
      var questionsAsked := stateManager.IncrementQuestionsAsked();
      ghost var st1 := WithAnswer(before.st, currentTech.value, currentQuestion, input);
      ghost var s2 := before.(st := st1.(questionsAsked := st1.questionsAsked + 1));
      assert Current() == s2;
      if questionsAsked >= 3 {
        AfterThirdAnswer(currentTech.value);
      }
    }

    /** The third answer for `tech`, the current technology: move to the next
        technology, or complete the interview and store a consenting
        candidate's answers. */
    method AfterThirdAnswer(tech: string)
      requires stateManager.state.currentStep == TECHNICAL
      requires stateManager.state.currentTech == Some(tech) && tech in stateManager.state.techStack
      requires TechsNamed(stateManager.state)
      modifies this, stateManager
      ensures Current() == Conversation.AfterThirdAnswer(old(Current()))
    {
      var techStack := stateManager.GetTechStack();
      var currentIndex := IndexOf(techStack, tech);
      if currentIndex < |techStack| - 1 {
        stateManager.SetCurrentTech(techStack[currentIndex + 1]);
      } else {
        stateManager.UpdateCurrentStep(COMPLETE);
        stateManager.MarkInterviewComplete();
        if consentGiven && candidateId.Some? {
          StoreInterviewResponses();
        }
      }
    }

    /** `_create_candidate_record`: the profile is sent to the database, and
        the id it answers with is kept. */
    method CreateCandidateRecord()
      modifies this
      ensures Current() == Conversation.CreateCandidateRecord(old(Current()))
    {
      var candidateData := stateManager.GetCandidateInfo();
      candidateId := Some(|dbCalls|);
      dbCalls := dbCalls + [CreateCandidate(candidateData, consentGiven)];
    }

    /** `_store_interview_responses`: with an id and consent, the answered
        pairs of every technology that has some are sent to the database. */
    method StoreInterviewResponses()
      requires TechsNamed(stateManager.state)
      modifies this
      ensures Current() == Conversation.StoreInterviewResponses(old(Current()))
    {
      if candidateId.None? || !consentGiven {
        return;
      }
      var responses := CollectResponses();
      dbCalls := dbCalls + [StoreResponses(candidateId.value, responses)];
    }

    /** The `responses` loop of `_store_interview_responses`. */
    method CollectResponses() returns (responses: map<string, seq<QA>>)
      requires TechsNamed(stateManager.state)
      ensures responses == InterviewResponses(stateManager.state)
    {
      responses := map[];
      var techStack := stateManager.GetTechStack();
      for i := 0 to |techStack|
        invariant responses == ResponsesOf(stateManager.state, techStack[..i])
      {
        var qaPairs := stateManager.GetAskedQuestions(techStack[i]);
        ResponsesOfPrefix(stateManager.state, techStack, i);
        if qaPairs != [] {
          responses := responses[techStack[i] := qaPairs];
        }
      }
      assert techStack[..|techStack|] == techStack;
    }

    /** `_get_next_response`, called after the answer has been stored. */
    method GetNextResponse(input: string, pick: nat) returns (reply: string)
      requires Inv(Current())
      modifies stateManager
      ensures Current() == NextState(old(Current()))
      ensures reply == NextReply(old(Current()), input, llm, pick, texts)
    {
      var currentStep := stateManager.GetCurrentStep();
      if currentStep in FLOW_KEYS {
        FlowKeyNotPhase(currentStep);
        reply := GetProfileResponse(input);
      } else if currentStep == TECHNICAL {
        reply := GetTechnicalQuestionResponse(pick);
      } else if currentStep == COMPLETE {
        reply := GetConclusionResponse();
      } else {
        reply := texts.fallback;
      }
    }

    /** The information-gathering branch of `_get_next_response`. */
    method GetProfileResponse(input: string) returns (reply: string)
      requires stateManager.state.currentStep in FLOW_KEYS
      ensures reply == ProfileReply(Current(), input, llm)
    {
      var currentStep := stateManager.GetCurrentStep();
      var currentIndex := IndexOf(FLOW_KEYS, currentStep);
      var nextQuestion := INTERVIEW_FLOW[currentStep];
      if currentIndex > 0 {
        var prevStep := FLOW_KEYS[currentIndex - 1];
        reply := llm(InfoGathering(prevStep, input, nextQuestion));
        if Strip(reply) == [] {
          var firstName := stateManager.GetFirstName();
          reply := BasicAcknowledgment(prevStep, firstName) + " " + nextQuestion;
        }
      } else {
        reply := nextQuestion;
      }
    }

    /** The closing branch of `_get_next_response`: the conclusion is given
        and the interview is marked finished. */
    method GetConclusionResponse() returns (reply: string)
      requires stateManager.state.currentStep == COMPLETE
      modifies stateManager
      ensures stateManager.state == old(stateManager.state).(interviewFinished := true)
      ensures reply == ConclusionReply(old(Current()), llm, texts)
    {
      var name := stateManager.GetFirstName();
      var techStack := stateManager.GetTechStack();
      if consentGiven {
        reply := texts.dataNotice;
      } else {
        reply := llm(Conclusion(name, Join(techStack, ", ")));
        if Strip(reply) == [] {
          reply := texts.conclusion;
        }
      }
      stateManager.MarkInterviewFinished();
    }

    /** `_get_technical_question_response`: poses and stores the next
        question of the current technology. */
    method GetTechnicalQuestionResponse(pick: nat) returns (reply: string)
      requires stateManager.state.currentTech.Some?
      requires stateManager.state.currentTech.value in stateManager.state.techStack
      requires stateManager.state.currentTech.value != ""
      modifies stateManager
      ensures var st := old(stateManager.state);
              stateManager.state == st.(currentQuestion := PosedQuestion(st, st.currentTech.value))
      ensures reply == TechnicalReply(old(stateManager.state), llm, pick)
    {
      var currentTech := stateManager.GetCurrentTech();
      var tech := currentTech.value;
      var questionsAsked := stateManager.GetQuestionsAskedCount();
      var techQuestions := stateManager.GetTechQuestions(tech);
      if techQuestions == [] || |techQuestions| < 3 {
        techQuestions := DefaultQuestions(tech);
      }
      ghost var st := stateManager.state;
      assert techQuestions == EffectiveQuestions(st, tech);
      if questionsAsked == 0 {
        assert techQuestions[0] == PosedQuestion(st, tech);
        reply := AskFirstQuestion(tech, techQuestions[0]);
      } else {
        var nextQuestionIndex := questionsAsked;
        if nextQuestionIndex >= |techQuestions| {
          nextQuestionIndex := |techQuestions| - 1;
        }
        var nextQuestion := techQuestions[nextQuestionIndex];
        assert nextQuestion == PosedQuestion(st, tech);
        stateManager.StoreQuestion(nextQuestion);
        reply := AskNextQuestion(tech, nextQuestion, pick);
      }
    }

    /** The first question of a technology is stored and introduced by a
        transition. */
    method AskFirstQuestion(tech: string, question: string) returns (reply: string)
      requires tech in stateManager.state.techStack
      modifies stateManager
      ensures stateManager.state == old(stateManager.state).(currentQuestion := question)
      ensures reply == TransitionReply(old(stateManager.state), tech, question, llm)
    {
      var techStack := stateManager.GetTechStack();
      var info := stateManager.GetCandidateInfo();
      var techStackRaw := if "tech_stack" in info then info["tech_stack"] else "";
      var first := tech == techStack[0];
      if first {
        reply := llm(TechTransition(techStackRaw, tech, question));
      } else {
        var previousTech := techStack[IndexOf(techStack, tech) - 1];
        reply := llm(TechTransitionNext(previousTech, tech, question));
      }
      stateManager.StoreQuestion(question);
      if Strip(reply) == [] {
        reply := TransitionText(first, tech, question);
      }
    }

    /** A later question is posed after a comment on the last answered pair. */
    method AskNextQuestion(tech: string, nextQuestion: string, pick: nat) returns (reply: string)
      requires tech != ""
      ensures reply == FollowUpReply(AskedFor(stateManager.state, tech), tech, nextQuestion, llm, pick)
    {
      var askedQuestions := stateManager.GetAskedQuestions(tech);
      if askedQuestions != [] {
        var last := askedQuestions[|askedQuestions| - 1];
        var response := llm(NextTechQuestion(tech, last.question, last.answer, nextQuestion));
        if Strip(response) != [] {
          return response;
        }
      }
      reply := Acknowledged(pick, nextQuestion);
    }

    /** `reset_chat`: a fresh interview record and cleared consent flags; the
        database keeps what it has. */
    method ResetChat()
      modifies this, stateManager
      ensures Current() == Conversation.ResetChat(old(Current())) && Inv(Current())
    {
      stateManager.Reset();
      candidateId := None;
      consentRequested := false;
      consentGiven := false;
      gdprIntroShown := false;
    }

    /** `can_continue_typing`. */
    method CanContinueTyping() returns (canType: bool)
      ensures canType == Conversation.CanContinueTyping(Current())
    {
      var finished := stateManager.IsInterviewFinished();
      canType := !finished;
    }
  }
}
