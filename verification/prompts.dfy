/** The texts the controller uses: the attributes of `PromptTemplates` and
    `ConsentPrompts` (templates/prompts.py, templates/consent_prompts.py) for
    the company "PGAGI" and the interviewer "AVA", and the literal replies of
    chatbot_controller.py. The LLM prompt templates themselves are not here: a
    call of the model is an `Llm.Request` naming the template. */
module Prompts {
  import opened Text

  const COMPANY_NAME: string := "PGAGI"
  const INTERVIEWER_NAME: string := "AVA"

  /** The keys of `INTERVIEW_FLOW`, in the order the profile is collected. */
  const FLOW_KEYS: seq<string> := ["name", "email", "phone", "experience", "position", "location", "tech_stack"]

  const TECHNICAL: string := "technical_questions"
  const COMPLETE: string := "complete"

  /** `INTERVIEW_FLOW`: the question asked at each profile step. */
  const INTERVIEW_FLOW: map<string, string> := map[
    "name" :=
      "What is your full name?",
    "email" :=
      "What is your email address?",
    "phone" :=
      "What is your phone number " + "where we can reach you?",
    "experience" :=
      "How many years of professional " + "experience do you have in " + "software development?",
    "position" :=
      "What position are you applying " + "for?",
    "location" :=
      "What is your current location?",
    "tech_stack" :=
      "Please specify your tech " + "stack, including programming " + "languages, frameworks, databases"
      + ", and tools you are proficient " + "in. Please list them separated " + "by commas (e.g., Python, "
      + "React, MongoDB)."
  ]

  /** `BASIC_ACKNOWLEDGMENTS`; the `name` entry holds the `{name}` placeholder. */
  const BASIC_ACKNOWLEDGMENTS: map<string, string> := map[
    "name" := "Thanks {name}.",
    "email" := "Got it.",
    "phone" := "Thanks for providing your " + "contact information.",
    "experience" := "Thank you for sharing your " + "experience.",
    "position" := "I see you're interested " + "in that role.",
    "location" := "Thank you for letting me " + "know your location.",
    "tech_stack" := "Thanks for sharing your " + "tech stack."
  ]

  /** `ACKNOWLEDGMENT_RESPONSES`, from which the technical fallback picks one. */
  const ACKNOWLEDGMENT_RESPONSES: seq<string> := [
    "Thank you for sharing that " + "information.",
    "That's helpful to understand " + "your background.",
    "I appreciate your detailed " + "response.",
    "Great, that gives me a good " + "picture of your experience.",
    "Thank you for your thorough " + "explanation."
  ]

  const CONCLUSION_MESSAGE: string :=
    "Thank you for taking the " + "time to interview with PGAGI " + "today. I enjoyed learning "
    + "more about your background " + "and assessing your theoretical " + "understanding. Your responses "
    + "provided valuable insights " + "into your skills and experience." + "\n\nThe next step in the process "
    + "is for us to review all " + "the interview responses. " + "We will be in touch within "
    + "a few business days to let " + "you know if your qualifications " + "are a good match for our "
    + "current openings.\n\nWe appreciate" + " you considering PGAGI, " + "and we wish you the very "
    + "best of luck with your applicati" + "on.\n\nSincerely,\n\nAVA\nAI " + "Technical Interviewer\nPGAGI\n"

  const CONSENT_REQUEST: string :=
    "This data will include:\n" + "- Your name, email, and " + "phone number\n- Your professional"
    + " experience and skills\n- " + "Your answers to technical " + "questions\n\nWe follow GDPR "
    + "guidelines, meaning:\n1. " + "Your data will be stored " + "securely\n2. It will be retained "
    + "for a maximum of 12 months\n" + "3. You can request access, " + "correction, or deletion "
    + "of your data at any time\n" + "4. We will not share your " + "data with third parties "
    + "without your consent\n\nDo " + "you consent to PGAGI storing " + "this information? Please "
    + "reply with 'yes' or 'no'.\n"

  const CONSENT_GIVEN: string :=
    "Thank you for your consent. " + "Your information will be " + "stored securely in accordance "
    + "with our privacy policy.\n" + "\nYou may revoke this consent " + "at any time by contacting "
    + "our data protection team " + "at privacy@pgagi.com.\n\nLet " + "me now explain the interview "
    + "process:\n- This interview " + "will take approximately " + "15-20 minutes\n- First, I'll "
    + "collect some basic information " + "about you\n- Then, I'll ask " + "some theoretical technical "
    + "questions (no coding required)\n" + "- Feel free to ask clarifying " + "questions at any point\n\n"
    + "Now, let's begin. Could " + "you please tell me your " + "full name?\n"

  const CONSENT_DECLINED: string :=
    "I understand your decision. " + "PGAGI will not store your " + "personal data beyond this "
    + "interview session.\n\nLet " + "me now explain the interview " + "process:\n- This interview "
    + "will take approximately " + "15-20 minutes\n- First, I'll " + "collect some basic information "
    + "about you\n- Then, I'll ask " + "some theoretical technical " + "questions (no coding required)\n"
    + "- Feel free to ask clarifying " + "questions at any point\n- " + "Since you declined data "
    + "storage, your responses " + "will not be saved after " + "our conversation ends\n\nNow, "
    + "let's begin. Could you please " + "tell me your full name?\n"

  const END_OF_INTERVIEW_DATA_NOTICE: string :=
    "This concludes our interview. " + "As you've consented, PGAGI " + "will store your interview "
    + "responses for evaluation.\n" + "\nYour data will be processed " + "in accordance with our privacy "
    + "policy and GDPR regulations.\n" + "\nIf you have any questions " + "about how your data is handled, "
    + "please contact our data " + "protection team.\n"

  /** The opening message of `get_initial_prompt`. */
  const GDPR_FIRST_GREETING: string :=
    "Hi there! I'm AVA, an AI " + "technical interviewer for " + "PGAGI.\n\nI'll be conducting "
    + "a technical interview to " + "assess your qualifications " + "for a developer role with "
    + "our company. Before we begin, " + "I need to inform you about " + "our data storage policy:\n"
    + "\nPGAGI would like to store " + "your interview data for " + "evaluation and potential "
    + "future hiring decisions.\n" + "\n"
    + CONSENT_REQUEST

  const EXIT_MESSAGE: string :=
    "Thank you for participating " + "in the interview. The session " + "has been ended."
  const EMPTY_INPUT_MESSAGE: string :=
    "I didn't receive your response. " + "Could you please provide " + "an answer to the question?"
  const CONSENT_REPROMPT: string :=
    "Please respond with 'yes' " + "or 'no' to indicate whether " + "you consent to storing your "
    + "interview data."
  const FALLBACK_MESSAGE: string :=
    "I'm not sure what to ask " + "next. Let's restart the " + "interview."

  /** The fixed replies of a turn, gathered in one value. The model of a turn
      is stated for any wording, and the controller is built with `PROMPTS`,
      the wording above. */
  datatype Texts = Texts(
    greeting: string,
    consentGiven: string,
    consentDeclined: string,
    consentReprompt: string,
    dataNotice: string,
    conclusion: string,
    exitMessage: string,
    emptyInput: string,
    fallback: string)

  const PROMPTS: Texts := Texts(
    GDPR_FIRST_GREETING, CONSENT_GIVEN, CONSENT_DECLINED, CONSENT_REPROMPT,
    END_OF_INTERVIEW_DATA_NOTICE, CONCLUSION_MESSAGE, EXIT_MESSAGE, EMPTY_INPUT_MESSAGE, FALLBACK_MESSAGE)

  /** The lowered answers that count as consent, and as refusal. */
  const CONSENT_YES: set<string> := {"yes", "y", "sure", "okay", "ok", "agree", "consent", "i consent"}
  const CONSENT_NO: set<string> := {"no", "n", "nope", "disagree", "do not consent", "i do not consent"}

  /** `template.format(name=value)` for a template whose only placeholder is
      `{name}`: every occurrence is replaced. */
  function FillName(template: string, value: string): string
    decreases |template|
  {
    if |template| < 6 then template
    else if template[..6] == "{name}" then value + FillName(template[6..], value)
    else [template[0]] + FillName(template[1..], value)
  }

  /** A template without the placeholder is left as it is. */
  lemma {:induction false} FillNameWithout(template: string, value: string)
    requires !Contains(template, "{name}")
    ensures FillName(template, value) == template
    decreases |template|
  {
    if |template| >= 6 {
      assert !OccursAt(template, "{name}", 0);
      assert !Contains(template[1..], "{name}") by {
        if Contains(template[1..], "{name}") {
          var i :| 0 <= i <= |template[1..]| - 6 && OccursAt(template[1..], "{name}", i);
          assert template[i + 1..i + 7] == template[1..][i..i + 6];
          assert OccursAt(template, "{name}", i + 1);
        }
      }
      FillNameWithout(template[1..], value);
    }
  }

  /** `BASIC_ACKNOWLEDGMENTS.get(prev_step, "Thank you.")`, formatted with the
      first name when it holds `{name}`. */
  function BasicAcknowledgment(prevStep: string, firstName: string): string {
    var ack := if prevStep in BASIC_ACKNOWLEDGMENTS then BASIC_ACKNOWLEDGMENTS[prevStep] else "Thank you.";
    if Contains(ack, "{name}") then FillName(ack, firstName) else ack
  }
}
