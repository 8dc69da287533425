/** One turn of the interview controller (chatbot_controller.py) as functions
    on values. A `Session` is everything a turn reads or changes: the interview
    record, the three consent flags, the candidate id, and the log of database
    calls made so far. A turn is split into `Step`, the new session, and
    `Reply`, the message shown; the two follow the same branches of
    `process_user_input`. The language model is the oracle `llm`; the random
    acknowledgment is chosen by the number `pick`, which only `Reply` reads. */
module Conversation {
  import opened Text
  import opened TechParser
  import opened Validators
  import opened Llm
  import opened QuestionGenerator
  import opened StateManager
  import opened Prompts

  /** A call into the database manager, recorded instead of performed. */
  datatype DbCall =
    | CreateCandidate(info: map<string, string>, consentGiven: bool)
    | StoreResponses(candidateId: nat, responses: map<string, seq<QA>>)

  datatype Session = Session(
    st: InterviewState,
    gdprIntroShown: bool,
    consentRequested: bool,
    consentGiven: bool,
    candidateId: Option<nat>,
    db: seq<DbCall>)

  /** The generator's view of the model: one question-generation request per technology. */
  function GenOracle(llm: Oracle): string -> string {
    t => llm(TechQuestionGeneration(t))
  }

  /** Python's `list.index`: the first position holding `x`. */
  function IndexOf(xs: seq<string>, x: string): (i: nat)
    requires x in xs
    ensures i < |xs| && xs[i] == x
    ensures forall j :: 0 <= j < i ==> xs[j] != x
  {
    if xs[0] == x then 0 else 1 + IndexOf(xs[1..], x)
  }

  predicate Distinct(xs: seq<string>) {
    forall i, j :: 0 <= i < j < |xs| ==> xs[i] != xs[j]
  }

  /** The sessions the controller can reach: the step is a profile key, the
      technical phase or the end; every technology is a non-empty name; in
      the technical phase the current technology is one of the stack, fewer
      than three of its questions have been answered, and every technology
      of the stack has its three questions. A candidate id is only ever the
      position of an earlier candidate creation made with consent. */
  predicate Inv(s: Session) {
    StepKnown(s.st) && TechsNamed(s.st) && TechPhaseReady(s.st) && IdRecorded(s)
  }

  predicate StepKnown(st: InterviewState) {
    st.currentStep in FLOW_KEYS || st.currentStep == TECHNICAL || st.currentStep == COMPLETE
  }

  predicate TechsNamed(st: InterviewState) {
    forall i :: 0 <= i < |st.techStack| ==> st.techStack[i] != ""
  }

  predicate QuestionsReady(st: InterviewState) {
    forall t :: t in st.techStack ==> |TechQuestionsFor(st, t)| == 3
  }

  predicate TechPhaseReady(st: InterviewState) {
    st.currentStep == TECHNICAL ==>
      && st.currentTech.Some? && st.currentTech.value in st.techStack
      && st.questionsAsked < 3
      && QuestionsReady(st)
  }

  predicate IdRecorded(s: Session) {
    s.candidateId.Some? ==> s.consentGiven && s.candidateId.value < |s.db| && s.db[s.candidateId.value].CreateCandidate?
  }

  /** `reset_chat`: a fresh record and cleared consent flags. The database
      keeps whatever was stored. */
  function ResetChat(s: Session): (r: Session)
    ensures Inv(r)
    ensures r.db == s.db
  {
    Session(INITIAL, false, false, false, None, s.db)
  }

  /** A controller right after construction. */
  const NEW_SESSION: Session := Session(INITIAL, false, false, false, None, [])

  /** `get_initial_prompt` marks the consent introduction as shown (and
      returns the greeting). */
  function GetInitialPrompt(s: Session): Session {
    s.(gdprIntroShown := true)
  }

  /** `can_continue_typing`. */
  function CanContinueTyping(s: Session): bool {
    !s.st.interviewFinished
  }

  // ---------------------------------------------------------------------------
  // Consent

  /** How `_process_consent_response` reads an answer. */
  datatype ConsentAnswer = Consented | Declined | Unclear

  /** `_process_consent_response`: the lowered (but not stripped) answer is
      looked up in the yes-set, then in the no-set. */
  function ConsentOf(input: string): ConsentAnswer {
    var answer := Lower(input);
    if answer in CONSENT_YES then Consented
    else if answer in CONSENT_NO then Declined
    else Unclear
  }

  /** The consent gate (lines 83-90 of the controller) closes whatever the
      answer and records consent only for a yes. */
  function ConsentStep(s: Session, input: string): Session {
    var s1 := s.(consentRequested := true);
    if ConsentOf(input) == Consented then s1.(consentGiven := true) else s1
  }

  function ConsentReply(input: string, texts: Texts): string {
    match ConsentOf(input)
    case Consented => texts.consentGiven
    case Declined => texts.consentDeclined
    case Unclear => texts.consentReprompt
  }

  // ---------------------------------------------------------------------------
  // Storing an answer

  /** `_create_candidate_record`: the profile goes to the database; the new
      id is the position of the call in the log. */
  function CreateCandidateRecord(s: Session): Session {
    s.(candidateId := Some(|s.db|), db := s.db + [CreateCandidate(s.st.candidateInfo, s.consentGiven)])
  }

  /** The `responses` dictionary of `_store_interview_responses` built over
      the technologies `techs`, in order: each one with at least one answered
      question is entered with its pairs. */
  function ResponsesOf(st: InterviewState, techs: seq<string>): (m: map<string, seq<QA>>)
    ensures m.Keys == set t | t in techs && AskedFor(st, t) != []
    ensures forall t :: t in m ==> m[t] == AskedFor(st, t)
  {
    if techs == [] then map[]
    else
      var init := techs[..|techs| - 1];
      var tech := techs[|techs| - 1];
      assert forall t :: t in techs <==> t in init || t == tech by {
        assert techs == init + [tech];
      }
      var m := ResponsesOf(st, init);
      if AskedFor(st, tech) != [] then m[tech := AskedFor(st, tech)] else m
  }

  /** One more technology of the list adds its entry when it has answers. */
  lemma ResponsesOfPrefix(st: InterviewState, techs: seq<string>, i: nat)
    requires i < |techs|
    ensures ResponsesOf(st, techs[..i + 1])
            == if AskedFor(st, techs[i]) != [] then ResponsesOf(st, techs[..i])[techs[i] := AskedFor(st, techs[i])]
               else ResponsesOf(st, techs[..i])
  {
    assert techs[..i + 1][..i] == techs[..i];
  }

  /** Every technology of the stack with at least one answered question,
      with its pairs. */
  function InterviewResponses(st: InterviewState): (m: map<string, seq<QA>>)
    ensures m.Keys == set t | t in st.techStack && AskedFor(st, t) != []
    ensures forall t :: t in m ==> m[t] == AskedFor(st, t)
  {
    ResponsesOf(st, st.techStack)
  }

  /** The consent flags of `r` are those of `s`. */
  predicate SameConsent(s: Session, r: Session) {
    r.gdprIntroShown == s.gdprIntroShown && r.consentRequested == s.consentRequested && r.consentGiven == s.consentGiven
  }

  /** `after` is `before` with calls appended: the log is never rewritten. */
  predicate Appended(before: seq<DbCall>, after: seq<DbCall>) {
    |before| <= |after| && after[..|before|] == before
  }

  /** `_store_interview_responses`: a no-op without an id or without consent. */
  function StoreInterviewResponses(s: Session): (r: Session)
    ensures r.st == s.st && r.candidateId == s.candidateId && SameConsent(s, r)
    ensures r.db != s.db <==> s.candidateId.Some? && s.consentGiven
    ensures r.db != s.db ==> r.db == s.db + [StoreResponses(s.candidateId.value, InterviewResponses(s.st))]
  {
    if s.candidateId.None? || !s.consentGiven then s
    else s.(db := s.db + [StoreResponses(s.candidateId.value, InterviewResponses(s.st))])
  }

  /** `_store_user_response` at a profile step. */
  function StoreProfileAnswer(s: Session, input: string, llm: Oracle): (r: Session)
    requires s.st.currentStep in FLOW_KEYS
    ensures SameConsent(s, r)
    ensures Appended(s.db, r.db)
    ensures !s.consentGiven ==> r.db == s.db && r.candidateId == s.candidateId
  {
    var step := s.st.currentStep;
    FlowIndex(step);
    var st1 := WithCandidateInfo(s.st, step, input);
    var st2 := if step == "tech_stack" then st1.(techStack := ParseTechStack(input, MAX_TECHS)) else st1;
    var i := IndexOf(FLOW_KEYS, step);
    if i < |FLOW_KEYS| - 1 then s.(st := st2.(currentStep := FLOW_KEYS[i + 1]))
    else if step == "tech_stack" then StartTechnicalPhase(s.(st := st2), llm)
    else s.(st := st2)
  }

  /** The end of the profile: an empty stack becomes `["general"]`, three
      questions are generated per technology, the first technology becomes
      current with nothing asked yet, and a consenting candidate is created
      in the database. */
  function StartTechnicalPhase(s: Session, llm: Oracle): (r: Session)
    ensures r.st.techStack == if s.st.techStack == [] then ["general"] else s.st.techStack
    ensures r.st.currentStep == TECHNICAL && r.st.currentTech == Some(r.st.techStack[0]) && r.st.questionsAsked == 0
    ensures r.st.techQuestions == GeneratedQuestions(r.st.techStack, GenOracle(llm))
    ensures r.consentGiven == s.consentGiven
    ensures !s.consentGiven ==> r.candidateId == s.candidateId && r.db == s.db
    ensures s.consentGiven ==> r.candidateId == Some(|s.db|) && r.db == s.db + [CreateCandidate(s.st.candidateInfo, true)]
  {
    var techStack := if s.st.techStack == [] then ["general"] else s.st.techStack;
    var st := s.st.(techStack := techStack,
                    techQuestions := GeneratedQuestions(techStack, GenOracle(llm)),
                    currentStep := TECHNICAL,
                    currentTech := Some(techStack[0]),
                    questionsAsked := 0);
    if s.consentGiven then CreateCandidateRecord(s.(st := st)) else s.(st := st)
  }

  /** The step after each profile step is the next key of the flow; only the
      last key, `tech_stack`, has none. */
  lemma FlowIndex(step: string)
    requires step in FLOW_KEYS
    ensures IndexOf(FLOW_KEYS, step) < |FLOW_KEYS| - 1 <==> step != "tech_stack"
  {
  }

  /** The profile keys are neither of the two later steps. */
  lemma FlowKeyNotPhase(step: string)
    requires step in FLOW_KEYS
    ensures step != TECHNICAL && step != COMPLETE
  {
  }

  /** The key after a profile step other than the last is again a profile key. */
  lemma FlowSuccessor(step: string)
    requires step in FLOW_KEYS && step != "tech_stack"
    ensures IndexOf(FLOW_KEYS, step) < |FLOW_KEYS| - 1
    ensures var next := FLOW_KEYS[IndexOf(FLOW_KEYS, step) + 1];
            next in FLOW_KEYS && next != TECHNICAL && next != COMPLETE
  {
    FlowIndex(step);
  }

  /** `_store_user_response` in the technical phase: the answer is appended
      to the current technology's pairs and counted; the third answer moves
      on to the next technology or ends the interview. */
  function StoreTechnicalAnswer(s: Session, input: string): (r: Session)
    requires s.st.currentStep == TECHNICAL
    requires s.st.currentTech.Some? && s.st.currentTech.value in s.st.techStack
    requires s.st.questionsAsked < 3
    ensures r.st.techStack == s.st.techStack && r.st.techQuestions == s.st.techQuestions
    ensures r.st.currentStep == TECHNICAL || r.st.currentStep == COMPLETE
    ensures r.st.currentTech.Some? && r.st.currentTech.value in r.st.techStack
    ensures r.st.currentStep == TECHNICAL ==> r.st.questionsAsked < 3
    ensures r.candidateId == s.candidateId && SameConsent(s, r)
    ensures Appended(s.db, r.db)
    ensures !s.consentGiven ==> r.db == s.db
  {
    var tech := s.st.currentTech.value;
    var st1 := WithAnswer(s.st, tech, s.st.currentQuestion, input);
    var s2 := s.(st := st1.(questionsAsked := st1.questionsAsked + 1));
    if s2.st.questionsAsked >= 3 then AfterThirdAnswer(s2) else s2
  }

  /** The third answer for a technology: the next technology of the stack
      becomes current with its count reset, or, after the last one, the
      interview is complete and a consenting candidate's answers are stored. */
  function AfterThirdAnswer(s: Session): (r: Session)
    requires s.st.currentStep == TECHNICAL
    requires s.st.currentTech.Some? && s.st.currentTech.value in s.st.techStack
    ensures r.st.techStack == s.st.techStack && r.st.techQuestions == s.st.techQuestions
    ensures r.st.askedQuestions == s.st.askedQuestions
    ensures r.st.currentStep == TECHNICAL ==> r.st.questionsAsked == 0
    ensures r.st.currentStep == TECHNICAL || r.st.currentStep == COMPLETE
    ensures r.st.currentTech.Some? && r.st.currentTech.value in r.st.techStack
    ensures r.candidateId == s.candidateId && SameConsent(s, r)
    ensures Appended(s.db, r.db)
    ensures !s.consentGiven ==> r.db == s.db
  {
    var techs := s.st.techStack;
    var i := IndexOf(techs, s.st.currentTech.value);
    if i < |techs| - 1 then s.(st := s.st.(currentTech := Some(techs[i + 1]), questionsAsked := 0))
    else
      var s3 := s.(st := s.st.(currentStep := COMPLETE, interviewComplete := true));
      if s.consentGiven && s.candidateId.Some? then StoreInterviewResponses(s3) else s3
  }

  /** `_store_user_response`. */
  function StoreUserResponse(s: Session, input: string, llm: Oracle): (r: Session)
    requires Inv(s)
    ensures SameConsent(s, r)
    ensures Appended(s.db, r.db)
    ensures !s.consentGiven ==> r.db == s.db
  {
    if s.st.currentStep in FLOW_KEYS then StoreProfileAnswer(s, input, llm)
    else if s.st.currentStep == TECHNICAL then StoreTechnicalAnswer(s, input)
    else s
  }

  // ---------------------------------------------------------------------------
  // The next message

  /** The questions the technical phase draws from: the stored ones, or the
      defaults when fewer than three are stored. */
  function EffectiveQuestions(st: InterviewState, tech: string): (qs: seq<string>)
    ensures |qs| >= 3
    ensures |TechQuestionsFor(st, tech)| >= 3 ==> qs == TechQuestionsFor(st, tech)
    ensures |TechQuestionsFor(st, tech)| < 3 ==> qs == DefaultQuestions(tech)
  {
    var stored := TechQuestionsFor(st, tech);
    if stored == [] || |stored| < 3 then DefaultQuestions(tech) else stored
  }

  /** The question `_get_technical_question_response` poses and stores: the
      one at the count of answers so far, clamped to the last. */
  function PosedQuestion(st: InterviewState, tech: string): string {
    var questions := EffectiveQuestions(st, tech);
    var k := st.questionsAsked;
    questions[if k >= |questions| then |questions| - 1 else k]
  }

  /** What `_get_next_response` changes: in the technical phase the posed
      question is stored, and at the end the interview is marked finished. */
  function NextState(s: Session): (r: Session)
    requires Inv(s)
    ensures Inv(r)
    ensures r.st == s.st.(currentQuestion := r.st.currentQuestion, interviewFinished := r.st.interviewFinished)
    ensures r.db == s.db && r.candidateId == s.candidateId && SameConsent(s, r)
  {
    if s.st.currentStep == TECHNICAL then
      s.(st := s.st.(currentQuestion := PosedQuestion(s.st, s.st.currentTech.value)))
    else if s.st.currentStep == COMPLETE then
      s.(st := s.st.(interviewFinished := true))
    else s
  }

  /** A model reply is used when it has visible text. */
  function OrElse(reply: string, fallback: string): string {
    if Strip(reply) != [] then reply else fallback
  }

  const ABOUT_TECH: string := " Now I'd like to ask you " + "some theoretical questions " + "about "

  /** The fallback text of the first question of a technology. */
  function TransitionText(first: bool, tech: string, question: string): string {
    if first then
      BASIC_ACKNOWLEDGMENTS["tech_stack"] + ABOUT_TECH + tech + "." + "\n\n" + question
    else
      "Great." + ABOUT_TECH + tech + "." + "\n\n" + question
  }

  /** The message of `_get_technical_question_response`. */
  function TechnicalReply(st: InterviewState, llm: Oracle, pick: nat): string
    requires st.currentTech.Some? && st.currentTech.value in st.techStack
  {
    var tech := st.currentTech.value;
    var question := PosedQuestion(st, tech);
    if st.questionsAsked == 0 then TransitionReply(st, tech, question, llm)
    else FollowUpReply(AskedFor(st, tech), tech, question, llm, pick)
  }

  /** The first question of a technology, introduced by the model's
      transition (from the profile, or from the previous technology) or by
      the fixed one. */
  function TransitionReply(st: InterviewState, tech: string, question: string, llm: Oracle): string
    requires tech in st.techStack
  {
    if tech == st.techStack[0] then
      var raw := if "tech_stack" in st.candidateInfo then st.candidateInfo["tech_stack"] else "";
      OrElse(llm(TechTransition(raw, tech, question)), TransitionText(true, tech, question))
    else
      var previousTech := st.techStack[IndexOf(st.techStack, tech) - 1];
      OrElse(llm(TechTransitionNext(previousTech, tech, question)), TransitionText(false, tech, question))
  }

  /** The question after the acknowledgment that `pick` chooses. */
  function Acknowledged(pick: nat, question: string): (r: string)
    ensures exists k :: 0 <= k < |ACKNOWLEDGMENT_RESPONSES| && r == ACKNOWLEDGMENT_RESPONSES[k] + " " + question
  {
    ACKNOWLEDGMENT_RESPONSES[pick % |ACKNOWLEDGMENT_RESPONSES|] + " " + question
  }

  /** A later question of a technology, after the model's comment on the
      last answered pair or, failing that, the acknowledgment chosen by `pick`. */
  function FollowUpReply(asked: seq<QA>, tech: string, question: string, llm: Oracle, pick: nat): string {
    var fallback := Acknowledged(pick, question);
    if asked != [] then
      var last := asked[|asked| - 1];
      OrElse(llm(NextTechQuestion(tech, last.question, last.answer, question)), fallback)
    else fallback
  }

  /** The closing message: the data notice for a consenting candidate,
      otherwise the model's conclusion or the fixed one. */
  function ConclusionReply(s: Session, llm: Oracle, texts: Texts): string {
    if s.consentGiven then texts.dataNotice
    else OrElse(llm(Conclusion(s.st.firstName, Join(s.st.techStack, ", "))), texts.conclusion)
  }

  /** The message of `_get_next_response` at a profile step: the question
      of the step, after an acknowledgment of the previous one (the model's,
      or the fixed one) from the second step on. */
  function ProfileReply(s: Session, input: string, llm: Oracle): string
    requires s.st.currentStep in FLOW_KEYS
  {
    var step := s.st.currentStep;
    var i := IndexOf(FLOW_KEYS, step);
    var nextQuestion := INTERVIEW_FLOW[step];
    if i > 0 then
      var prevStep := FLOW_KEYS[i - 1];
      OrElse(llm(InfoGathering(prevStep, input, nextQuestion)),
             BasicAcknowledgment(prevStep, s.st.firstName) + " " + nextQuestion)
    else nextQuestion
  }

  /** The message of `_get_next_response`, called after the answer has been stored. */
  function NextReply(s: Session, input: string, llm: Oracle, pick: nat, texts: Texts): string
    requires Inv(s)
  {
    var step := s.st.currentStep;
    if step in FLOW_KEYS then ProfileReply(s, input, llm)
    else if step == TECHNICAL then TechnicalReply(s.st, llm, pick)
    else if step == COMPLETE then ConclusionReply(s, llm, texts)
    else texts.fallback
  }

  // ---------------------------------------------------------------------------
  // A whole turn

  /** The exit command: "exit" in any case, with any surrounding whitespace. */
  predicate IsExit(input: string) {
    Lower(Strip(input)) == "exit"
  }

  /** Input with no visible character. */
  predicate IsBlank(input: string) {
    Strip(input) == []
  }

  /** The consent gate is open: the introduction was shown and no answer to it taken yet. */
  predicate GateOpen(s: Session) {
    s.gdprIntroShown && !s.consentRequested
  }

  /** The session after `process_user_input(input)`. */
  function Step(s: Session, input: string, llm: Oracle): Session
    requires Inv(s)
  {
    if IsExit(input) then s.(st := s.st.(interviewFinished := true))
    else if IsBlank(input) then s
    else if GateOpen(s) then ConsentStep(s, input)
    else if ValidateInput(s.st.currentStep, input).Invalid? then s
    else
      InvStore(s, input, llm);
      NextState(StoreUserResponse(s, input, llm))
  }

  /** The message `process_user_input(input)` returns. */
  function Reply(s: Session, input: string, llm: Oracle, pick: nat, texts: Texts): string
    requires Inv(s)
  {
    if IsExit(input) then texts.exitMessage
    else if IsBlank(input) then texts.emptyInput
    else if GateOpen(s) then ConsentReply(input, texts)
    else
      var validation := ValidateInput(s.st.currentStep, input);
      if validation.Invalid? then
        var reply := llm(ValidationError(validation.fieldType, validation.error));
        if reply != [] then reply else validation.error
      else
        InvStore(s, input, llm);
        NextReply(StoreUserResponse(s, input, llm), input, llm, pick, texts)
  }

  // ---------------------------------------------------------------------------
  // The invariant

  lemma InvStartTechnical(s: Session, llm: Oracle)
    requires TechsNamed(s.st) && IdRecorded(s)
    ensures Inv(StartTechnicalPhase(s, llm))
  {
    var r := StartTechnicalPhase(s, llm);
    assert QuestionsReady(r.st);
  }

  lemma InvStoreProfile(s: Session, input: string, llm: Oracle)
    requires Inv(s) && s.st.currentStep in FLOW_KEYS
    ensures Inv(StoreProfileAnswer(s, input, llm))
  {
    if s.st.currentStep == "tech_stack" {
      InvEnterTechnical(s, input, llm);
    } else {
      InvAdvanceProfile(s, input, llm);
    }
  }

  lemma InvEnterTechnical(s: Session, input: string, llm: Oracle)
    requires Inv(s) && s.st.currentStep == "tech_stack"
    ensures Inv(StoreProfileAnswer(s, input, llm))
  {
    FlowIndex("tech_stack");
    var parsed := ParseTechStack(input, MAX_TECHS);
    var st2 := WithCandidateInfo(s.st, "tech_stack", input).(techStack := parsed);
    assert TechsNamed(st2) by {
      forall i | 0 <= i < |parsed| ensures parsed[i] != "" {
        assert IsCleanToken(parsed[i]);
      }
    }
    InvStartTechnical(s.(st := st2), llm);
  }

  lemma InvAdvanceProfile(s: Session, input: string, llm: Oracle)
    requires Inv(s) && s.st.currentStep in FLOW_KEYS && s.st.currentStep != "tech_stack"
    ensures Inv(StoreProfileAnswer(s, input, llm))
  {
    var step := s.st.currentStep;
    FlowSuccessor(step);
    var next := FLOW_KEYS[IndexOf(FLOW_KEYS, step) + 1];
    assert StoreProfileAnswer(s, input, llm) == s.(st := WithCandidateInfo(s.st, step, input).(currentStep := next));
  }

  lemma InvStoreTechnical(s: Session, input: string)
    requires Inv(s) && s.st.currentStep == TECHNICAL
    ensures Inv(StoreTechnicalAnswer(s, input))
  {
    var r := StoreTechnicalAnswer(s, input);
    assert TechsNamed(r.st);
    assert QuestionsReady(r.st) by {
      forall t | t in r.st.techStack ensures |TechQuestionsFor(r.st, t)| == 3 {
        assert TechQuestionsFor(r.st, t) == TechQuestionsFor(s.st, t);
      }
    }
    if r.candidateId.Some? {
      assert r.db[r.candidateId.value] == r.db[..|s.db|][r.candidateId.value];
    }
  }

  /** Storing a valid answer keeps the invariant. */
  lemma InvStore(s: Session, input: string, llm: Oracle)
    requires Inv(s)
    ensures Inv(StoreUserResponse(s, input, llm))
  {
    if s.st.currentStep in FLOW_KEYS {
      InvStoreProfile(s, input, llm);
    } else if s.st.currentStep == TECHNICAL {
      InvStoreTechnical(s, input);
    }
  }
}
