/** The language-model collaborator (models/llm_client.py) as an oracle.
    `generate_response(template, context)` formats a template with its context
    and returns the stripped reply text, or "" when the call fails. The model
    keeps only which template is asked for and with which parameters; the reply
    is whatever the oracle function returns for that request. */
module Llm {

  /** One call of `generate_response`: the template's key and the context
      values the controller supplies (the interviewer and company names, which
      are constants, are left out). */
  datatype Request =
    | ValidationError(fieldType: string, errorMessage: string)
    | InfoGathering(prevStep: string, userInput: string, nextQuestion: string)
    | TechTransition(techStack: string, currentTech: string, firstQuestion: string)
    | TechTransitionNext(previousTech: string, nextTech: string, firstQuestion: string)
    | NextTechQuestion(technology: string, previousQuestion: string, previousAnswer: string, nextQuestion: string)
    | Conclusion(candidateName: string, technologies: string)
    | TechQuestionGeneration(technology: string)

  /** A deterministic stand-in for the model: "" stands for any failure. */
  type Oracle = Request -> string
}
