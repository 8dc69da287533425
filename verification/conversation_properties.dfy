/** What a turn of the interview guarantees, proved about the functions of
    `Conversation` (and so, through the contracts of `Controller`, about the
    controller class): the handling of exit and empty input, the one-shot
    consent gate, validation, the order of the profile, three answers per
    technology, consent-gated persistence, and what happens with a repeated
    technology. */
module ConversationProperties {
  import opened Text
  import opened TechParser
  import opened Validators
  import opened Llm
  import opened QuestionGenerator
  import opened StateManager
  import opened Prompts
  import opened Conversation

  // ---------------------------------------------------------------------------
  // The invariant holds from the start and is kept by every turn

  lemma NewSessionInv()
    ensures Inv(NEW_SESSION) && Inv(GetInitialPrompt(NEW_SESSION))
  {
  }

  /** Every turn keeps the invariant, so a session driven only by
      `get_initial_prompt`, `process_user_input` and `reset_chat` stays in it. */
  lemma StepKeepsInv(s: Session, input: string, llm: Oracle)
    requires Inv(s)
    ensures Inv(Step(s, input, llm))
  {
    if Accepted(s, input) {
      AcceptedStep(s, input, llm);
    }
  }

  /** The session after a sequence of inputs. */
  function Run(s: Session, inputs: seq<string>, llm: Oracle): (r: Session)
    requires Inv(s)
    ensures Inv(r)
    decreases |inputs|
  {
    if inputs == [] then s
    else
      StepKeepsInv(s, inputs[0], llm);
      Run(Step(s, inputs[0], llm), inputs[1..], llm)
  }

  // ---------------------------------------------------------------------------
  // Exit and empty input

  /** "exit", in any case and with any surrounding whitespace, ends the
      session with the fixed goodbye and changes nothing but the finished
      flag: not the step, the answers or the consent. */
  lemma ExitTurn(s: Session, input: string, llm: Oracle, pick: nat, texts: Texts)
    requires Inv(s) && IsExit(input)
    ensures Step(s, input, llm) == s.(st := s.st.(interviewFinished := true))
    ensures Reply(s, input, llm, pick, texts) == texts.exitMessage
    ensures !CanContinueTyping(Step(s, input, llm))
  {
  }

  /** Input without a visible character is not an exit; it is answered by
      the fixed re-prompt and changes nothing. */
  lemma BlankTurn(s: Session, input: string, llm: Oracle, pick: nat, texts: Texts)
    requires Inv(s) && IsBlank(input)
    ensures Step(s, input, llm) == s
    ensures Reply(s, input, llm, pick, texts) == texts.emptyInput
  {
    assert Lower(Strip(input)) == [];
  }

  // ---------------------------------------------------------------------------
  // The consent gate

  /** The first visible, non-exit input after the greeting is taken as the
      consent answer: the gate closes whatever it says, only a yes records
      consent, and the interview does not move on. */
  lemma ConsentTurn(s: Session, input: string, llm: Oracle, pick: nat, texts: Texts)
    requires Inv(s) && !IsExit(input) && !IsBlank(input) && GateOpen(s)
    ensures Step(s, input, llm) == s.(consentRequested := true, consentGiven := s.consentGiven || ConsentOf(input) == Consented)
    ensures !GateOpen(Step(s, input, llm))
    ensures ConsentOf(input) == Consented ==> Reply(s, input, llm, pick, texts) == texts.consentGiven
    ensures ConsentOf(input) == Declined ==> Reply(s, input, llm, pick, texts) == texts.consentDeclined
    ensures ConsentOf(input) == Unclear ==> Reply(s, input, llm, pick, texts) == texts.consentReprompt
  {
  }

  /** What a single turn does to the consent flags: the request flag and
      consent are never withdrawn, the greeting flag never changes, and
      consent is only ever given at the open gate by a yes. */
  lemma StepConsentFlags(s: Session, input: string, llm: Oracle)
    requires Inv(s)
    ensures var r := Step(s, input, llm);
            && r.gdprIntroShown == s.gdprIntroShown
            && (s.consentRequested ==> r.consentRequested)
            && (s.consentGiven ==> r.consentGiven)
            && (r.consentGiven && !s.consentGiven ==> GateOpen(s) && ConsentOf(input) == Consented)
  {
    if Accepted(s, input) {
      AcceptedStep(s, input, llm);
    }
  }

  /** Once the consent question has been answered, the gate stays closed for
      the rest of the session, however many turns follow. */
  lemma {:induction false} GateRunsOnce(s: Session, inputs: seq<string>, llm: Oracle)
    requires Inv(s) && s.consentRequested
    ensures Run(s, inputs, llm).consentRequested && !GateOpen(Run(s, inputs, llm))
    decreases |inputs|
  {
    if inputs != [] {
      StepConsentFlags(s, inputs[0], llm);
      StepKeepsInv(s, inputs[0], llm);
      GateRunsOnce(Step(s, inputs[0], llm), inputs[1..], llm);
    }
  }

  /** The answer is lowered but not stripped: "YES" is consent, " yes" is not
      a consent answer at all. */
  lemma ConsentNotTrimmed()
    ensures ConsentOf("YES") == Consented
    ensures ConsentOf("No") == Declined
    ensures ConsentOf(" yes") == Unclear
  {
    assert Lower("YES") == "yes";
    assert Lower("No") == "no";
    assert Lower(" yes") == " yes";
  }
  // ---------------------------------------------------------------------------
  // Answers that pass the checks

  /** The input is stored as an answer: not an exit, not blank, not the
      consent answer, and accepted by the validator. */
  predicate Accepted(s: Session, input: string) {
    !IsExit(input) && !IsBlank(input) && !GateOpen(s) && ValidateInput(s.st.currentStep, input).Valid?
  }

  /** An accepted answer is stored and then the next message is prepared. */
  lemma AcceptedStep(s: Session, input: string, llm: Oracle)
    requires Inv(s) && Accepted(s, input)
    ensures Inv(StoreUserResponse(s, input, llm))
    ensures Step(s, input, llm) == NextState(StoreUserResponse(s, input, llm))
  {
    InvStore(s, input, llm);
  }

  /** The reply to an accepted answer is the next message for the updated session. */
  lemma AcceptedReply(s: Session, input: string, llm: Oracle, pick: nat, texts: Texts)
    requires Inv(s) && Accepted(s, input)
    ensures Inv(StoreUserResponse(s, input, llm))
    ensures Reply(s, input, llm, pick, texts) == NextReply(StoreUserResponse(s, input, llm), input, llm, pick, texts)
  {
    InvStore(s, input, llm);
  }

  /** The two later steps are not profile keys. */
  lemma PhasesAfterProfile()
    ensures TECHNICAL !in FLOW_KEYS && COMPLETE !in FLOW_KEYS && TECHNICAL != COMPLETE
  {
  }

  /** In the technical phase every visible, non-exit input after the consent
      answer is an answer, and it is stored as a technical answer. */
  lemma TechnicalStep(s: Session, input: string, llm: Oracle)
    requires Inv(s) && s.st.currentStep == TECHNICAL
    requires !IsExit(input) && !IsBlank(input) && !GateOpen(s)
    ensures Accepted(s, input)
    ensures Inv(StoreTechnicalAnswer(s, input))
    ensures Step(s, input, llm) == NextState(StoreTechnicalAnswer(s, input))
  {
    PhasesAfterProfile();
    AcceptedStep(s, input, llm);
  }

  /** An answer the validator refuses (only an email or a phone number can
      be refused) changes nothing; the reply is the model's explanation of
      the error, or the validator's message when the model gives none. */
  lemma InvalidTurn(s: Session, input: string, llm: Oracle, pick: nat, texts: Texts)
    requires Inv(s) && !IsExit(input) && !IsBlank(input) && !GateOpen(s)
    requires ValidateInput(s.st.currentStep, input).Invalid?
    ensures s.st.currentStep == "email" || s.st.currentStep == "phone"
    ensures Step(s, input, llm) == s
    ensures var v := ValidateInput(s.st.currentStep, input);
            var explained := llm(ValidationError(v.fieldType, v.error));
            && (explained != [] ==> Reply(s, input, llm, pick, texts) == explained)
            && (explained == [] ==> Reply(s, input, llm, pick, texts) == v.error)
  {
  }

  /** A profile answer other than the tech stack is recorded under its step,
      and the interview moves to the next key of the flow; the database and
      the consent are untouched. */
  lemma ProfileTurn(s: Session, input: string, llm: Oracle)
    requires Inv(s) && Accepted(s, input)
    requires s.st.currentStep in FLOW_KEYS && s.st.currentStep != "tech_stack"
    ensures var r := Step(s, input, llm);
            var i := IndexOf(FLOW_KEYS, s.st.currentStep);
            && i + 1 < |FLOW_KEYS|
            && r.st == WithCandidateInfo(s.st, s.st.currentStep, input).(currentStep := FLOW_KEYS[i + 1])
            && r.st.candidateInfo == s.st.candidateInfo[s.st.currentStep := input]
            && r.db == s.db && r.candidateId == s.candidateId && SameConsent(s, r)
  {
    var step := s.st.currentStep;
    FlowSuccessor(step);
    AcceptedStep(s, input, llm);
    assert StoreUserResponse(s, input, llm) == s.(st := WithCandidateInfo(s.st, step, input).(currentStep := FLOW_KEYS[IndexOf(FLOW_KEYS, step) + 1]));
  }

  /** The tech-stack answer starts the technical phase: the parsed stack
      (never empty) is kept, three questions are generated per technology,
      the first technology's first question is posed, and a consenting
      candidate's profile is written to the database as a new record. */
  lemma TechStackTurn(s: Session, input: string, llm: Oracle)
    requires Inv(s) && Accepted(s, input) && s.st.currentStep == "tech_stack"
    ensures var r := Step(s, input, llm);
            var techs := ParseTechStack(input, MAX_TECHS);
            && r.st.candidateInfo == s.st.candidateInfo["tech_stack" := input]
            && r.st.techStack == techs
            && r.st.techQuestions == GeneratedQuestions(techs, GenOracle(llm))
            && r.st.currentStep == TECHNICAL && r.st.currentTech == Some(techs[0]) && r.st.questionsAsked == 0
            && r.st.currentQuestion == r.st.techQuestions[techs[0]][0]
            && (s.consentGiven ==> r.candidateId == Some(|s.db|) && r.db == s.db + [CreateCandidate(r.st.candidateInfo, true)])
            && (!s.consentGiven ==> r.candidateId == s.candidateId && r.db == s.db)
  {
    FlowIndex("tech_stack");
    AcceptedStep(s, input, llm);
    var techs := ParseTechStack(input, MAX_TECHS);
    var st2 := WithCandidateInfo(s.st, "tech_stack", input).(techStack := techs);
    var r1 := StoreUserResponse(s, input, llm);
    assert r1 == StartTechnicalPhase(s.(st := st2), llm);
    assert TechQuestionsFor(r1.st, techs[0]) == r1.st.techQuestions[techs[0]];
  }

  // ---------------------------------------------------------------------------
  // The technical phase

  /** The question posed in the technical phase is the stored one at the
      count of answers so far. */
  lemma PosedQuestionStored(s: Session)
    requires Inv(s) && s.st.currentStep == TECHNICAL
    ensures var tech := s.st.currentTech.value;
            NextState(s).st.currentQuestion == s.st.techQuestions[tech][s.st.questionsAsked]
  {
    var tech := s.st.currentTech.value;
    assert TechQuestionsFor(s.st, tech) == s.st.techQuestions[tech];
  }

  /** A technical answer is appended, with the question it answers, to the
      current technology's pairs, and to no other technology's. */
  lemma TechnicalAnswerPairs(s: Session, input: string)
    requires Inv(s) && s.st.currentStep == TECHNICAL
    ensures var tech := s.st.currentTech.value;
            var r := StoreTechnicalAnswer(s, input);
            && AskedFor(r.st, tech) == AskedFor(s.st, tech) + [QA(s.st.currentQuestion, input)]
            && (forall t :: t != tech ==> AskedFor(r.st, t) == AskedFor(s.st, t))
  {
  }

  /** The first two answers of a technology keep it current and count up;
      its third answer moves to the next technology of the stack, or, for
      the last one, completes the interview. */
  lemma TechnicalAdvance(s: Session, input: string)
    requires Inv(s) && s.st.currentStep == TECHNICAL
    ensures var tech := s.st.currentTech.value;
            var techs := s.st.techStack;
            var r := StoreTechnicalAnswer(s, input);
            && (s.st.questionsAsked < 2 ==>
                  r.st.currentStep == TECHNICAL && r.st.currentTech == s.st.currentTech
                  && r.st.questionsAsked == s.st.questionsAsked + 1)
            && (s.st.questionsAsked == 2 && IndexOf(techs, tech) + 1 < |techs| ==>
                  r.st.currentStep == TECHNICAL && r.st.currentTech == Some(techs[IndexOf(techs, tech) + 1])
                  && r.st.questionsAsked == 0)
            && (s.st.questionsAsked == 2 && IndexOf(techs, tech) + 1 == |techs| ==>
                  r.st.currentStep == COMPLETE && r.st.interviewComplete)
  {
  }

  /** How many answers the technical phase still needs: three per
      technology from the current one on, less those already given. */
  function Remaining(st: InterviewState): (n: nat)
    requires st.currentTech.Some? && st.currentTech.value in st.techStack && st.questionsAsked < 3
    ensures n >= 1
  {
    3 * (|st.techStack| - IndexOf(st.techStack, st.currentTech.value)) - st.questionsAsked
  }

  /** In a stack without repetitions a technology's position is its index. */
  lemma IndexOfDistinct(xs: seq<string>, i: nat)
    requires Distinct(xs) && i < |xs|
    ensures IndexOf(xs, xs[i]) == i
  {
  }

  /** With distinct technologies every technical answer brings the end one
      answer closer, and the last needed answer completes the interview. */
  lemma TechnicalProgress(s: Session, input: string)
    requires Inv(s) && s.st.currentStep == TECHNICAL && Distinct(s.st.techStack)
    ensures var r := StoreTechnicalAnswer(s, input);
            && (Remaining(s.st) == 1 ==> r.st.currentStep == COMPLETE)
            && (Remaining(s.st) > 1 ==> r.st.currentStep == TECHNICAL && Remaining(r.st) == Remaining(s.st) - 1)
  {
    var techs := s.st.techStack;
    var i := IndexOf(techs, s.st.currentTech.value);
    TechnicalAdvance(s, input);
    if s.st.questionsAsked == 2 && i + 1 < |techs| {
      IndexOfDistinct(techs, i + 1);
    }
  }

  /** With distinct technologies, once the technical phase has begun, exactly
      `Remaining` further answers (none of them an exit or blank) complete
      the interview. */
  lemma {:induction false} FinishesAfterRemaining(s: Session, answers: seq<string>, llm: Oracle)
    requires Inv(s) && s.st.currentStep == TECHNICAL && Distinct(s.st.techStack) && !GateOpen(s)
    requires |answers| == Remaining(s.st)
    requires forall k :: 0 <= k < |answers| ==> !IsExit(answers[k]) && !IsBlank(answers[k])
    ensures Run(s, answers, llm).st.currentStep == COMPLETE
    decreases |answers|
  {
    var a := answers[0];
    TechnicalStep(s, a, llm);
    TechnicalProgress(s, a);
    var r := Step(s, a, llm);
    if Remaining(s.st) > 1 {
      FinishesAfterRemaining(r, answers[1..], llm);
    }
  }

  /** A repeated technology never ends. Let position `j` of the stack repeat
      an earlier technology, and let the current technology first occur
      before `j`. The third answer for a technology makes the one after its
      first occurrence current. That is never past `j`, and the technology
      at `j` first occurs before `j`, so the current one stays before `j`
      and the end of the stack is never passed. */
  predicate BeforeRepeat(st: InterviewState, j: nat) {
    && st.currentStep == TECHNICAL
    && j < |st.techStack| && st.techStack[j] in st.techStack[..j]
    && st.currentTech.Some? && st.currentTech.value in st.techStack
    && IndexOf(st.techStack, st.currentTech.value) < j
  }

  lemma RepeatedTechStep(s: Session, input: string, llm: Oracle, j: nat)
    requires Inv(s) && BeforeRepeat(s.st, j)
    ensures BeforeRepeat(Step(s, input, llm).st, j)
  {
    if Accepted(s, input) {
      TechnicalStep(s, input, llm);
      RepeatedTechAnswer(s, input, j);
    } else {
      RefusedTurn(s, input, llm);
    }
  }

  /** The answer part of `RepeatedTechStep`. */
  lemma RepeatedTechAnswer(s: Session, input: string, j: nat)
    requires Inv(s) && BeforeRepeat(s.st, j)
    ensures BeforeRepeat(StoreTechnicalAnswer(s, input).st, j)
  {
    var techs := s.st.techStack;
    var i := IndexOf(techs, s.st.currentTech.value);
    TechnicalAdvance(s, input);
    if s.st.questionsAsked == 2 {
      NextBeforeRepeat(techs, i, j);
    }
  }

  /** Before a repeated position `j`, the entry after position `i` first
      occurs before `j`. */
  lemma NextBeforeRepeat(techs: seq<string>, i: nat, j: nat)
    requires i < j < |techs| && techs[j] in techs[..j]
    ensures IndexOf(techs, techs[i + 1]) < j
  {
    if i + 1 == j {
      var k :| 0 <= k < j && techs[..j][k] == techs[j];
      assert techs[k] == techs[j];
    }
  }

  lemma {:induction false} RepeatedTechNeverCompletes(s: Session, inputs: seq<string>, llm: Oracle, j: nat)
    requires Inv(s) && BeforeRepeat(s.st, j)
    ensures BeforeRepeat(Run(s, inputs, llm).st, j)
    ensures Run(s, inputs, llm).st.currentStep == TECHNICAL
    decreases |inputs|
  {
    if inputs != [] {
      RepeatedTechStep(s, inputs[0], llm, j);
      StepKeepsInv(s, inputs[0], llm);
      RepeatedTechNeverCompletes(Step(s, inputs[0], llm), inputs[1..], llm, j);
    }
  }

  /** A stack with a repeated technology, entered at its first technology as
      the tech-stack answer leaves it, is never completed, whatever follows. */
  lemma NotDistinctNeverCompletes(s: Session, inputs: seq<string>, llm: Oracle)
    requires Inv(s) && s.st.currentStep == TECHNICAL && !Distinct(s.st.techStack)
    requires s.st.techStack != [] && s.st.currentTech == Some(s.st.techStack[0])
    ensures Run(s, inputs, llm).st.currentStep == TECHNICAL
  {
    var techs := s.st.techStack;
    var i, j :| 0 <= i < j < |techs| && techs[i] == techs[j];
    assert techs[..j][i] == techs[j];
    RepeatedTechNeverCompletes(s, inputs, llm, j);
  }

  // ---------------------------------------------------------------------------
  // The end of the interview

  /** The answer that completes the interview also finishes it, so typing
      stops; a consenting candidate is shown the data notice, anyone else the
      model's conclusion or the fixed one. */
  lemma CompletionTurn(s: Session, input: string, llm: Oracle, pick: nat, texts: Texts)
    requires Inv(s) && Accepted(s, input)
    requires StoreUserResponse(s, input, llm).st.currentStep == COMPLETE
    ensures Step(s, input, llm).st.interviewFinished && !CanContinueTyping(Step(s, input, llm))
    ensures s.consentGiven ==> Reply(s, input, llm, pick, texts) == texts.dataNotice
    ensures var st := StoreUserResponse(s, input, llm).st;
            var conclusion := llm(Conclusion(st.firstName, Join(st.techStack, ", ")));
            && (!s.consentGiven && Strip(conclusion) != [] ==> Reply(s, input, llm, pick, texts) == conclusion)
            && (!s.consentGiven && Strip(conclusion) == [] ==> Reply(s, input, llm, pick, texts) == texts.conclusion)
  {
    AcceptedStep(s, input, llm);
    AcceptedReply(s, input, llm, pick, texts);
    PhasesAfterProfile();
  }

  /** `exit` does not stop the interview from taking answers: after it the
      input box is disabled, yet a name typed afterwards is still stored and
      the interview moves on to the email. */
  lemma ExitDoesNotBlock(s: Session, name: string, llm: Oracle)
    requires Inv(s) && !GateOpen(s) && s.st.currentStep == "name"
    requires !IsExit(name) && !IsBlank(name)
    ensures !CanContinueTyping(Run(s, ["exit"], llm))
    ensures var r := Run(s, ["exit", name], llm);
            && r.st.candidateInfo == s.st.candidateInfo["name" := name]
            && r.st.firstName == FirstNameOf(name)
            && r.st.currentStep == "email"
  {
    SampleExit();
    var s1 := s.(st := s.st.(interviewFinished := true));
    assert Step(s, "exit", llm) == s1;
    RunOne(s, "exit", llm);
    RunTwo(s, "exit", name, llm);
    NameAnswer(s1, name, llm);
  }

  lemma SampleExit()
    ensures IsExit("exit")
  {
    assert Strip("exit") == "exit";
  }

  lemma RunOne(s: Session, a: string, llm: Oracle)
    requires Inv(s)
    ensures Run(s, [a], llm) == Step(s, a, llm)
  {
    assert [a][1..] == [];
  }

  lemma RunTwo(s: Session, a: string, b: string, llm: Oracle)
    requires Inv(s)
    ensures Inv(Step(s, a, llm))
    ensures Run(s, [a, b], llm) == Step(Step(s, a, llm), b, llm)
  {
    StepKeepsInv(s, a, llm);
    assert [a, b][1..] == [b];
    RunOne(Step(s, a, llm), b, llm);
  }

  /** The name answer is stored with its first word, and the email is asked next. */
  lemma NameAnswer(s: Session, name: string, llm: Oracle)
    requires Inv(s) && !GateOpen(s) && s.st.currentStep == "name"
    requires !IsExit(name) && !IsBlank(name)
    ensures var r := Step(s, name, llm);
            && r.st.candidateInfo == s.st.candidateInfo["name" := name]
            && r.st.firstName == FirstNameOf(name)
            && r.st.currentStep == "email"
  {
    NameThenEmail();
    assert Accepted(s, name);
    ProfileTurn(s, name, llm);
  }

  lemma NameThenEmail()
    ensures IndexOf(FLOW_KEYS, "name") == 0 && FLOW_KEYS[1] == "email"
  {
  }

  // ---------------------------------------------------------------------------
  // Persistence

  /** A turn only ever appends to the database log, and a session without
      consent writes nothing. */
  lemma StepPersistence(s: Session, input: string, llm: Oracle)
    requires Inv(s)
    ensures Appended(s.db, Step(s, input, llm).db)
    ensures !Step(s, input, llm).consentGiven ==> Step(s, input, llm).db == s.db
  {
    StepConsentFlags(s, input, llm);
    if Accepted(s, input) {
      AcceptedStep(s, input, llm);
    }
  }

  /** Over a whole session the log only grows, and a candidate who has not
      consented by the end has had nothing written. */
  lemma {:induction false} RunPersistence(s: Session, inputs: seq<string>, llm: Oracle)
    requires Inv(s)
    ensures Appended(s.db, Run(s, inputs, llm).db)
    ensures !Run(s, inputs, llm).consentGiven ==> !s.consentGiven && Run(s, inputs, llm).db == s.db
    decreases |inputs|
  {
    if inputs != [] {
      var r := Step(s, inputs[0], llm);
      StepPersistence(s, inputs[0], llm);
      StepConsentFlags(s, inputs[0], llm);
      StepKeepsInv(s, inputs[0], llm);
      RunPersistence(r, inputs[1..], llm);
      var e := Run(r, inputs[1..], llm);
      assert e.db[..|s.db|] == e.db[..|r.db|][..|s.db|];
    }
  }

  // ---------------------------------------------------------------------------
  // The order of the steps

  /** Where a step stands in the interview: the profile keys in flow order,
      then the technical phase, then the end. */
  function StepRank(step: string): (k: nat)
    ensures step in FLOW_KEYS ==> k < |FLOW_KEYS| && FLOW_KEYS[k] == step
    ensures step == TECHNICAL ==> k == |FLOW_KEYS|
    ensures step == COMPLETE ==> k == |FLOW_KEYS| + 1
  {
    if step in FLOW_KEYS then IndexOf(FLOW_KEYS, step)
    else if step == TECHNICAL then |FLOW_KEYS|
    else |FLOW_KEYS| + 1
  }

  /** The profile keys are all different, so a key's rank is its position. */
  lemma FlowKeysDistinct()
    ensures Distinct(FLOW_KEYS)
  {
  }

  /** A turn moves the interview forward by at most one step and never back:
      through the profile keys in order, then to the technical phase, then
      to the end. */
  lemma StepMovesForward(s: Session, input: string, llm: Oracle)
    requires Inv(s)
    ensures var k, k' := StepRank(s.st.currentStep), StepRank(Step(s, input, llm).st.currentStep);
            k' == k || k' == k + 1
  {
    if Accepted(s, input) {
      var step := s.st.currentStep;
      if step in FLOW_KEYS && step != "tech_stack" {
        ProfileMovesForward(s, input, llm);
      } else {
        PhasesAfterProfile();
        if step == "tech_stack" {
          TechStackTurn(s, input, llm);
          FlowIndex(step);
        } else if step == TECHNICAL {
          TechnicalStep(s, input, llm);
        } else {
          AcceptedStep(s, input, llm);
        }
      }
    } else {
      RefusedTurn(s, input, llm);
    }
  }

  /** A profile answer other than the tech stack moves to the next profile key. */
  lemma ProfileMovesForward(s: Session, input: string, llm: Oracle)
    requires Inv(s) && Accepted(s, input)
    requires s.st.currentStep in FLOW_KEYS && s.st.currentStep != "tech_stack"
    ensures StepRank(Step(s, input, llm).st.currentStep) == StepRank(s.st.currentStep) + 1
  {
    ProfileTurn(s, input, llm);
    FlowKeysDistinct();
    IndexOfDistinct(FLOW_KEYS, IndexOf(FLOW_KEYS, s.st.currentStep) + 1);
  }

  /** An input that is not stored as an answer leaves the record, except
      for the finished flag, and the log as they are. */
  lemma RefusedTurn(s: Session, input: string, llm: Oracle)
    requires Inv(s) && !Accepted(s, input)
    ensures Step(s, input, llm).st == s.st.(interviewFinished := Step(s, input, llm).st.interviewFinished)
    ensures Step(s, input, llm).db == s.db
  {
    if !IsExit(input) && !IsBlank(input) && !GateOpen(s) {
      assert ValidateInput(s.st.currentStep, input).Invalid?;
      assert Step(s, input, llm) == s;
    }
  }

  /** Over any sequence of inputs the interview never goes back a step. */
  lemma {:induction false} RunMovesForward(s: Session, inputs: seq<string>, llm: Oracle)
    requires Inv(s)
    ensures StepRank(Run(s, inputs, llm).st.currentStep) >= StepRank(s.st.currentStep)
    decreases |inputs|
  {
    if inputs != [] {
      StepMovesForward(s, inputs[0], llm);
      StepKeepsInv(s, inputs[0], llm);
      RunMovesForward(Step(s, inputs[0], llm), inputs[1..], llm);
    }
  }

  // ---------------------------------------------------------------------------
  // How often the database is called

  /** The number of candidate creations in a log. */
  function Creations(log: seq<DbCall>): nat {
    if log == [] then 0 else (if log[0].CreateCandidate? then 1 else 0) + Creations(log[1..])
  }

  /** The number of stored interview responses in a log. */
  function Stores(log: seq<DbCall>): nat {
    if log == [] then 0 else (if log[0].StoreResponses? then 1 else 0) + Stores(log[1..])
  }

  lemma {:induction false} CountsAppend(a: seq<DbCall>, b: seq<DbCall>)
    ensures Creations(a + b) == Creations(a) + Creations(b)
    ensures Stores(a + b) == Stores(a) + Stores(b)
    decreases |a|
  {
    if a != [] {
      assert (a + b)[1..] == a[1..] + b;
      CountsAppend(a[1..], b);
    } else {
      assert a + b == b;
    }
  }

  /** The answer that ends the technical phase is the only technical answer
      that writes to the database, and it writes one set of responses. */
  lemma TechnicalLog(s: Session, input: string)
    requires Inv(s) && s.st.currentStep == TECHNICAL
    ensures var r := StoreTechnicalAnswer(s, input);
            || r.db == s.db
            || (r.st.currentStep == COMPLETE && r.db == s.db + [StoreResponses(s.candidateId.value, InterviewResponses(r.st))])
  {
  }

  /** A turn makes at most one database call: a candidate creation only when
      the tech-stack answer opens the technical phase, and a store of the
      responses only when the last technical answer completes the interview. */
  lemma StepLog(s: Session, input: string, llm: Oracle)
    requires Inv(s)
    ensures var r := Step(s, input, llm);
            && Appended(s.db, r.db) && |r.db| <= |s.db| + 1
            && (Creations(r.db[|s.db|..]) > 0 ==> s.st.currentStep == "tech_stack" && r.st.currentStep == TECHNICAL)
            && (Stores(r.db[|s.db|..]) > 0 ==> s.st.currentStep == TECHNICAL && r.st.currentStep == COMPLETE)
  {
    var r := Step(s, input, llm);
    StepLogEntry(s, input, llm);
    if r.db == s.db {
      assert r.db[|s.db|..] == [];
    } else {
      var c := r.db[|s.db|];
      assert r.db[|s.db|..] == [c];
      assert Creations([c]) == (if c.CreateCandidate? then 1 else 0);
      assert Stores([c]) == (if c.StoreResponses? then 1 else 0);
    }
  }

  /** The call a turn makes, if any, as it stands in the log. */
  lemma StepLogEntry(s: Session, input: string, llm: Oracle)
    requires Inv(s)
    ensures var r := Step(s, input, llm);
            || r.db == s.db
            || (&& |r.db| == |s.db| + 1 && r.db[..|s.db|] == s.db
                && (r.db[|s.db|].CreateCandidate? ==> s.st.currentStep == "tech_stack" && r.st.currentStep == TECHNICAL)
                && (r.db[|s.db|].StoreResponses? ==> s.st.currentStep == TECHNICAL && r.st.currentStep == COMPLETE))
  {
    var step := s.st.currentStep;
    if !Accepted(s, input) {
      RefusedTurn(s, input, llm);
    } else {
      PhasesAfterProfile();
      if step in FLOW_KEYS && step != "tech_stack" {
        ProfileTurn(s, input, llm);
      } else if step == "tech_stack" {
        TechStackTurn(s, input, llm);
      } else if step == TECHNICAL {
        TechnicalStep(s, input, llm);
        TechnicalLog(s, input);
      } else {
        AcceptedStep(s, input, llm);
      }
    }
  }

  /** Over any sequence of inputs the candidate is created at most once and
      the responses are stored at most once; no creation happens once the
      technical phase has begun, and no store once the interview is complete. */
  lemma {:induction false} RunLogsOnce(s: Session, inputs: seq<string>, llm: Oracle)
    requires Inv(s)
    ensures |s.db| <= |Run(s, inputs, llm).db|
    ensures var added := Run(s, inputs, llm).db[|s.db|..];
            && Creations(added) <= 1 && Stores(added) <= 1
            && (StepRank(s.st.currentStep) >= |FLOW_KEYS| ==> Creations(added) == 0)
            && (s.st.currentStep == COMPLETE ==> Stores(added) == 0)
    decreases |inputs|
  {
    if inputs == [] {
      assert s.db[|s.db|..] == [];
    } else {
      var r := Step(s, inputs[0], llm);
      StepKeepsInv(s, inputs[0], llm);
      var e := Run(r, inputs[1..], llm);
      assert e == Run(s, inputs, llm);
      RunLogsOnce(r, inputs[1..], llm);
      RunPersistence(r, inputs[1..], llm);
      StepLog(s, inputs[0], llm);
      StepMovesForward(s, inputs[0], llm);
      var now, later := r.db[|s.db|..], e.db[|r.db|..];
      LogSplit(s.db, r.db, e.db);
      CountsAppend(now, later);
      CountsBounded(now);
      ComposeCounts(s.st.currentStep, r.st.currentStep, now, later);
    }
  }

  /** The calls after `a` in `c` are those after `a` in `b`, then those after `b` in `c`. */
  lemma LogSplit(a: seq<DbCall>, b: seq<DbCall>, c: seq<DbCall>)
    requires Appended(a, b) && Appended(b, c)
    ensures c[|a|..] == b[|a|..] + c[|b|..]
  {
    assert c == b + c[|b|..];
    assert b == a + b[|a|..];
  }

  lemma {:induction false} CountsBounded(log: seq<DbCall>)
    ensures Creations(log) <= |log| && Stores(log) <= |log|
  {
    if log != [] {
      CountsBounded(log[1..]);
    }
  }

  /** The counting step of `RunLogsOnce`: the calls `now` of one turn from
      step `before` to step `after`, then the calls `later` of the rest of
      the run. */
  lemma ComposeCounts(before: string, after: string, now: seq<DbCall>, later: seq<DbCall>)
    requires after in FLOW_KEYS || after == TECHNICAL || after == COMPLETE
    requires var k, k' := StepRank(before), StepRank(after); k' == k || k' == k + 1
    requires Creations(now) <= 1 && Stores(now) <= 1
    requires Creations(now) > 0 ==> before == "tech_stack" && after == TECHNICAL
    requires Stores(now) > 0 ==> before == TECHNICAL && after == COMPLETE
    requires && Creations(later) <= 1 && Stores(later) <= 1
             && (StepRank(after) >= |FLOW_KEYS| ==> Creations(later) == 0)
             && (after == COMPLETE ==> Stores(later) == 0)
    ensures && Creations(now) + Creations(later) <= 1 && Stores(now) + Stores(later) <= 1
            && (StepRank(before) >= |FLOW_KEYS| ==> Creations(now) + Creations(later) == 0)
            && (before == COMPLETE ==> Stores(now) + Stores(later) == 0)
  {
    PhasesAfterProfile();
  }

  // ---------------------------------------------------------------------------
  // Reset

  /** `reset_chat` forgets the interview and the consent but not the database;
      resetting twice is resetting once, and the next greeting reopens the
      consent gate. */
  lemma ResetProperties(s: Session)
    ensures ResetChat(ResetChat(s)) == ResetChat(s)
    ensures ResetChat(s).st == INITIAL && ResetChat(s).db == s.db
    ensures GateOpen(GetInitialPrompt(ResetChat(s)))
  {
  }
}
