# AssessAI interview driver in Dafny

This project models AssessAI, a scripted technical-interview chatbot, and proves properties of the model. A session goes through four stages:

- The bot greets the candidate.
- It asks once for consent to store their data.
- It collects a profile in a fixed order: name, email, phone, experience, position, location, tech stack.
- It asks three theoretical questions for each technology the candidate named, then closes the interview.

Answers are written to a database only when the candidate consented.

The modules follow the repository's files:

| module | file | models |
|---|---|---|
| `Text` | text.dfy | The Python string operations the code relies on: `strip`, `lower`, `split(sep)`, `split()`, `in`, `", ".join`. ASCII only. |
| `TechParser` | tech_parser.dfy | `parse_tech_stack`, `parse_questions_from_response` (a loop, as a method proved against a function) and `get_default_questions`. |
| `Validators` | validators.dfy | The email and phone regular expressions, as character-class predicates, and `validate_input`. |
| `Llm` | llm.dfy | The language model as an oracle. A request names the template and its parameters; the reply is any string, and `""` stands for a failed call. |
| `QuestionGenerator` | question_generator.dfy | `generate_tech_questions`: its two loops as a method, proved equal to `GeneratedQuestions`. |
| `StateManager` | state_manager.dfy | `InterviewStateManager` as a class. It has one mutable field, the interview record. Every setter states the whole new record. |
| `Prompts` | prompts.dfy | The fixed texts: the flow of profile questions, acknowledgments, consent messages and the conclusion. |
| `Conversation` | conversation.dfy | One turn of `ChatbotController`, as functions on a `Session` value. `Step` gives the new session and `Reply` the message shown. |
| `Controller` | chatbot_controller.dfy | `ChatbotController` as a class. Each method is proved to change the session exactly as the matching `Conversation` function says. |
| `ConversationProperties` | conversation_properties.dfy | What a turn and a whole session guarantee. |

Three choices shape the controller's model:

- **The database is a log.** The database manager is replaced by `dbCalls`, the log of `create_candidate` and `store_interview_responses` calls. The candidate id a creation returns is that call's position in the log.
- **The random acknowledgment is a parameter.** `random.choice` becomes the number `pick`, which selects one element of `ACKNOWLEDGMENT_RESPONSES`.
- **The state manager gets a finished flag.** The controller calls `mark_interview_finished` and `is_interview_finished` (chatbot_controller.py lines 76, 326 and 512), but interview/state_manager.py defines neither. In Python, the exit command and the closing turn stop with an `AttributeError`. So does every call of `can_continue_typing` (line 512), and main.py:111 calls it after every processed input: the real UI fails on the first answered turn. The model gives the state manager the `interviewFinished` field those calls need, and it models the behaviour the controller evidently expects.

The controller's reachable states are described by the invariant `Conversation.Inv`:

- the step is a profile key, the technical phase or the end;
- every technology is a non-empty name;
- in the technical phase, the current technology is one of the stack, fewer than three of its questions have been answered, and each technology has three questions;
- a candidate id is only ever the position of an earlier creation call.

`Inv` holds for a new controller and after `reset_chat`, and every turn keeps it (`NewSessionInv`, `Conversation.ResetChat`, `StepKeepsInv`); the controller's constructor, `process_user_input` and `reset_chat` state it in their own contracts.

Two more guarantees cover a whole session:

- **The steps only move forward.** `StepRank` numbers the profile keys in flow order, then `technical_questions`, then `complete`. A turn keeps the rank or raises it by one (`StepMovesForward`), so no sequence of inputs goes back (`RunMovesForward`).
- **Each database write happens at most once.** From any reachable state, any sequence of inputs logs at most one `create_candidate` call and at most one `store_interview_responses` call. No creation is logged once the technical phase has started, and no store once the interview is complete (`RunLogsOnce`).

## Model

| member | source | states |
|---|---|---|
| Text.LeadingSpaces | utils/tech_parser.py:16 | The count of leading whitespace characters: all of them whitespace, and the next one is not. |
| Text.TrailingStart | utils/tech_parser.py:16 | Where the trailing whitespace starts: everything from there on is whitespace, and the character before is not. |
| Text.TrimLeft | utils/tech_parser.py:47 | `lstrip`: a suffix of the input that does not start with whitespace, and only whitespace was dropped. |
| Text.Strip | utils/tech_parser.py:16 | `strip`: the result is the input with its leading and trailing whitespace removed, and no more. It starts right after the `LeadingSpaces(s)` leading whitespace characters, only whitespace follows it, and it has no whitespace at either end. It is empty exactly when the input is all whitespace. |
| Text.StripStripped | utils/tech_parser.py:44 | Stripping text that has no whitespace at its ends changes nothing, so `strip` is idempotent. |
| Text.LowerChar | utils/tech_parser.py:16 | An upper-case ASCII letter becomes the matching lower-case letter (code plus 32). Every other character is unchanged. |
| Text.Lower | utils/tech_parser.py:16 | `lower`: same length, no upper-case letter, and each character lowered in place. |
| Text.Split | utils/tech_parser.py:16 | `split(sep)`: at least one piece, and no piece contains the separator. |
| Text.SplitJoin | utils/tech_parser.py:16 | Joining the pieces with the separator gives back the input: the pieces are exactly the text between separators. |
| Text.SplitWithoutSeparator | utils/tech_parser.py:43 | Text without the separator splits into itself. |
| Text.ContainsInfix | utils/tech_parser.py:62-66 | A string placed between two others is contained in the result. |
| Text.Join | chatbot_controller.py:304 | `sep.join(parts)`: empty for no parts, the single part for one, otherwise the parts with `sep` between each two. |
| Text.TakeWord | interview/state_manager.py:53-55 | The first word: the longest prefix without whitespace. The character after it, if any, is whitespace. It is non-empty when the text starts with a visible character. |
| Text.Words | interview/state_manager.py:53 | `split()`: every piece is a non-empty run without whitespace, and there are no pieces exactly when the text is all whitespace. |
| Text.WordsSplit | interview/state_manager.py:53 | The text is exactly the words of `split()`, in order, with whitespace before, between and after them, and at least one whitespace character between two words. |
| Text.WordsGaps | interview/state_manager.py:53 | The same, returning the whitespace runs around the words. |
| Text.ConsSplit | interview/state_manager.py:53 | Whitespace, a word, then a split text starting with whitespace is a split text with one more word in front. |
| Text.SplitTail | interview/state_manager.py:53 | A split text with at least one word is its leading whitespace, its first word, then a split of the rest that starts with whitespace. |
| Text.TrimLeftSpaces | interview/state_manager.py:53 | Dropping the leading whitespace of whitespace followed by visible text leaves that text. |
| Text.TakeWordOf | interview/state_manager.py:53-55 | The first word of a whitespace-free run followed by whitespace or the end is that run. |
| Text.WordsOfSplit | interview/state_manager.py:53 | Conversely, any way of writing the text as whitespace-separated words gives exactly the words of `split()`, so the pieces are unique. |
| TechParser.CleanTokens | utils/tech_parser.py:16-19 | The comma-separated pieces of the input, each stripped and lowered, with the empty ones dropped, in input order. |
| TechParser.Cleaned | utils/tech_parser.py:16 | Cleaning keeps one token per piece. |
| TechParser.NonEmpty | utils/tech_parser.py:19 | The filter keeps only non-empty tokens from its input and never adds any. |
| TechParser.NonEmptyMembership | utils/tech_parser.py:19 | A token survives the filter exactly when it is in the input and non-empty. |
| TechParser.NonEmptyAppend | utils/tech_parser.py:19 | Filtering distributes over concatenation, so kept tokens stay in input order. |
| TechParser.SliceEnd | utils/tech_parser.py:22 | The end index of the slice `[:max_techs]` is within the list, and for a non-negative limit it is the smaller of the two. |
| TechParser.CleanedPiece | utils/tech_parser.py:16 | A cleaned comma-free piece is stripped, lower case and comma-free. |
| TechParser.CleanTokensShape | utils/tech_parser.py:16-19 | Every cleaned token is non-empty, stripped, lower case and comma-free. |
| TechParser.GeneralIsClean | utils/tech_parser.py:25-26 | The fallback `general` is a clean token. |
| TechParser.ParseTechStack | utils/tech_parser.py:5-28 | The result is never empty, every element is trimmed, lower case, non-empty and comma-free, and there are at most `max_techs` elements when `max_techs >= 1`. |
| TechParser.ParseTechStackPrefix | utils/tech_parser.py:16-26 | The result is `["general"]` or an order-preserving prefix of the cleaned tokens. It is `["general"]` whenever no token survives or the limit is 0. With a limit of at least 1 and some tokens, it is a prefix of length min(limit, number of tokens). |
| TechParser.ParseEmptyStack | utils/tech_parser.py:25-26 | Empty input gives exactly `["general"]`. |
| TechParser.DigitRun | utils/tech_parser.py:47 | The leading `\d+`: exactly the digits the text starts with. |
| TechParser.StripNumbering | utils/tech_parser.py:47 | Removing the number prefix leaves a suffix of the line. |
| TechParser.IsNumberedLine | utils/tech_parser.py:44-45 | A line is kept when, after stripping, it is non-empty and starts with `1.`, `2.` or `3.`. |
| TechParser.QuestionOf | utils/tech_parser.py:44-48 | What one line contributes: the de-numbered stripped line when it is kept, nothing otherwise. |
| TechParser.QuestionsFromLines | utils/tech_parser.py:43-48 | The loop body over all lines: each line's contribution, concatenated in line order. |
| TechParser.ParsedQuestions | utils/tech_parser.py:40-41 | An empty reply gives no questions. |
| TechParser.ParseQuestionsFromResponse | utils/tech_parser.py:31-50 | The line loop returns exactly `ParsedQuestions(response)`. |
| TechParser.NumberedQuestionText | utils/tech_parser.py:45-47 | A kept line `N.` loses exactly its two-character prefix and the whitespace after it. |
| TechParser.UnsupportedNumbering | utils/tech_parser.py:45 | Lines starting `- `, `1)` or `10.` (after stripping) contribute no question. |
| TechParser.FlatMapSnoc | utils/tech_parser.py:43-48 | One more line at the end adds its output at the end. |
| TechParser.FlatMapPrefix | utils/tech_parser.py:43-48 | One more line of a prefix adds that line's output, which is the loop step. |
| TechParser.FlatMapAppend | utils/tech_parser.py:43-48 | The output for concatenated line lists is the concatenation of the outputs. |
| TechParser.FlatMapFrom | utils/tech_parser.py:43-48 | Every output comes from some line. With at most one output per line, there are at most as many outputs as lines. |
| TechParser.QuestionsFromLinesAppend | utils/tech_parser.py:43-48 | Question order follows line order. |
| TechParser.QuestionOfShape | utils/tech_parser.py:44-48 | A line yields at most one question. A line starting `1.`, `2.` or `3.` after stripping yields exactly one: the stripped line without its first two characters and the whitespace after them. Every other line yields none. |
| TechParser.QuestionsFromLinesShape | utils/tech_parser.py:43-48 | There are at most as many questions as lines. Each question is the stripped, de-numbered text of a line starting `1.`, `2.` or `3.`. |
| TechParser.BulletedLineHasNoQuestions | utils/tech_parser.py:41-48 | A one-line reply bulleted `- ` yields no questions. |
| TechParser.BulletedReplyExample | utils/tech_parser.py:41-48 | `"- What is X?"` yields no questions. |
| TechParser.QuestionsFromLinesComplete | utils/tech_parser.py:43-48 | Conversely, every kept line contributes its question, at the position right after the questions of the lines before it. |
| TechParser.QuestionsFromLinesCount | utils/tech_parser.py:43-48 | There are exactly as many questions as kept lines. |
| TechParser.NumberedLinesSnoc | utils/tech_parser.py:45 | One more line adds its own position to the kept lines exactly when it is kept. |
| TechParser.OneLine | utils/tech_parser.py:43-48 | A one-line list yields exactly that line's question, if any. |
| TechParser.FlatMapOne | utils/tech_parser.py:43-48 | The loop over a single line gives that line's output. |
| TechParser.SplitAppend | utils/tech_parser.py:43 | `split('\n')` of two texts joined by a newline is the split of the first followed by the split of the second. |
| TechParser.NumberedLineQuestion | utils/tech_parser.py:44-48 | A stripped line `N. text`, with N one of 1, 2, 3 and text visible at both ends, yields exactly `text`. |
| TechParser.ThreeLines | utils/tech_parser.py:43 | Three newline-free lines joined by newlines split back into those three lines. |
| TechParser.FlatMapThree | utils/tech_parser.py:43-48 | The loop over three lines gives the three outputs in order. |
| TechParser.ThreeLineReply | utils/tech_parser.py:41-48 | A three-line reply gives the questions of its three lines, in order. |
| TechParser.ThreeNumberedLines | utils/tech_parser.py:41-48 | A reply of three lines `N. text` gives exactly the three texts, in order. |
| TechParser.NumberedReplyExample | utils/tech_parser.py:41-48 | `"1. What is X?\n2. Explain Y.\n3. Compare Z."` gives exactly `["What is X?", "Explain Y.", "Compare Z."]`. |
| TechParser.ExampleLine | utils/tech_parser.py:45 | Each line of that example is a stripped numbered line without a newline. |
| TechParser.DefaultQuestions | utils/tech_parser.py:53-66 | Exactly three default questions. |
| TechParser.DefaultQuestionsNameTech | utils/tech_parser.py:62-66 | Each default question contains the technology's name. |
| Validators.IsDomain | utils/validators.py:14 | The part after `@` matched by `[\w\.-]+\.\w+`: some `.` with at least one address character before it and only word characters, at least one, after it. |
| Validators.IsEmailBody | utils/validators.py:14 | The text matched by `[\w\.-]+@[\w\.-]+\.\w+` as a whole: some `@` with at least one address character before it and a domain after it. |
| Validators.ValidateEmail | utils/validators.py:5-15 | `re.match` with `^...$`: the address matches the body, or it is a matching body followed by one final newline, which `$` also accepts. |
| Validators.IsPhoneBody | utils/validators.py:28 | The text matched by `[\d\s\-\(\)\+]{7,20}`: 7 to 20 characters, each a digit, whitespace, `-`, `(`, `)` or `+`. |
| Validators.ValidatePhone | utils/validators.py:18-29 | `re.match` with `^...$`: the number matches the body, or it is a matching body followed by one final newline. |
| Validators.ValidateInput | utils/validators.py:32-59 | The input is valid exactly when it is not an email or phone answer failing its pattern. Any other step is valid. A bad email gives `Invalid("email address", <email error>)` and a bad phone gives `Invalid("phone number", <phone error>)`. |
| Validators.PhoneShape | utils/validators.py:18-29 | A phone number passes exactly when it is 7 to 20 characters from digits, whitespace, `-`, `(`, `)` and `+`. Because `$` matches before a final newline, 21 such characters ending in a newline also pass. |
| Validators.EmailShape | utils/validators.py:5-15 | An address whose text, without a final newline, matches the pattern holds exactly one `@`, after a non-empty local part, and ends in a word character. |
| Validators.SampleEmails | utils/validators.py:14-15 | `a@b.co` passes and `not-an-email` fails. |
| Validators.SampleValidation | utils/validators.py:43-49 | At the email step, `not-an-email` gives the email error and `a@b.co` is valid. |
| QuestionGenerator.Padded | interview/question_generator.py:43-44 | Padding keeps the parsed questions at the front, fills slot k below 3 with default k, and stops at length 3. |
| QuestionGenerator.QuestionsFor | interview/question_generator.py:35-47 | Exactly three questions per technology. |
| QuestionGenerator.QuestionsForShape | interview/question_generator.py:35-47 | Parsed questions keep their order at the front, and padding slot k holds default question k. A failed call gives exactly the defaults. With three or more parsed questions, the first three are kept. |
| QuestionGenerator.GeneratedQuestions | interview/question_generator.py:28-49 | The keys are exactly the technologies of the stack, and every value has exactly three questions. |
| QuestionGenerator.GeneratedQuestionsValues | interview/question_generator.py:30-47 | Each technology's entry is the padded and truncated parse of the model's reply for it. |
| QuestionGenerator.GeneratedQuestionsPrefix | interview/question_generator.py:30-47 | One more technology of the stack adds its entry, which is the loop step. |
| QuestionGenerator.GenerateTechQuestions | interview/question_generator.py:19-49 | The two loops return exactly `GeneratedQuestions(techStack, llm)`. |
| StateManager.TechQuestionsFor | interview/state_manager.py:150-161 | `tech_questions.get(tech, [])`: the technology's stored questions, or `[]` when it has none. |
| StateManager.AskedFor | interview/state_manager.py:179-190 | `asked_questions.get(tech, [])`: the technology's answered pairs, or `[]` when it has none. |
| StateManager.FirstNameOf | interview/state_manager.py:51-58 | For a name with a visible character, the first whitespace-free word of the stripped name: a prefix of it, followed by whitespace or the end. For a blank name, the empty string. |
| StateManager.WithCandidateInfo | interview/state_manager.py:42-58 | The answer is recorded under its step. Only the name step also changes the first name, and nothing else changes. |
| StateManager.WithAnswer | interview/state_manager.py:163-177 | Exactly one pair is appended to the technology's list, which starts empty when absent. Other technologies and other fields are untouched. |
| StateManager.InterviewStateManager.constructor | interview/state_manager.py:7-9 | A new manager holds the initial record. |
| StateManager.InterviewStateManager.Reset | interview/state_manager.py:11-24 | Afterwards the record is the initial one, whatever it was before: step `name`, empty info, answers and questions, no technology, count 0, not complete. |
| StateManager.InterviewStateManager.GetCurrentStep | interview/state_manager.py:26-32 | Returns the step. |
| StateManager.InterviewStateManager.UpdateCurrentStep | interview/state_manager.py:34-40 | Only the step changes. |
| StateManager.InterviewStateManager.StoreCandidateInfo | interview/state_manager.py:42-58 | The record becomes `WithCandidateInfo(old, step, value)`. |
| StateManager.InterviewStateManager.GetCandidateInfo | interview/state_manager.py:60-66 | Returns the candidate info. |
| StateManager.InterviewStateManager.GetFirstName | interview/state_manager.py:68-74 | Returns the first name. |
| StateManager.InterviewStateManager.SetTechStack | interview/state_manager.py:76-82 | Only the stack changes. |
| StateManager.InterviewStateManager.GetTechStack | interview/state_manager.py:84-90 | Returns the stack. |
| StateManager.InterviewStateManager.SetCurrentTech | interview/state_manager.py:92-99 | The technology is set and the count reset to 0; nothing else changes. |
| StateManager.InterviewStateManager.GetCurrentTech | interview/state_manager.py:101-107 | Returns the current technology. |
| StateManager.InterviewStateManager.IncrementQuestionsAsked | interview/state_manager.py:109-116 | The count rises by exactly one, the new count is returned, and nothing else changes. |
| StateManager.InterviewStateManager.GetQuestionsAskedCount | interview/state_manager.py:118-124 | Returns the count. |
| StateManager.InterviewStateManager.StoreQuestion | interview/state_manager.py:126-132 | Only the current question changes. |
| StateManager.InterviewStateManager.GetCurrentQuestion | interview/state_manager.py:134-140 | Returns the current question. |
| StateManager.InterviewStateManager.StoreTechQuestions | interview/state_manager.py:142-148 | Only the question dictionary changes. |
| StateManager.InterviewStateManager.GetTechQuestions | interview/state_manager.py:150-161 | An unknown technology gives `[]`, and a known one gives its list. |
| StateManager.InterviewStateManager.GetAllTechQuestions | interview/state_manager.py:150-161 | Without a technology, returns the whole dictionary. |
| StateManager.InterviewStateManager.StoreAnswer | interview/state_manager.py:163-177 | The record becomes `WithAnswer(old, tech, question, answer)`. |
| StateManager.InterviewStateManager.GetAskedQuestions | interview/state_manager.py:179-190 | An unknown technology gives `[]`, and a known one gives its pairs. |
| StateManager.InterviewStateManager.GetAllAskedQuestions | interview/state_manager.py:179-190 | Without a technology, returns the whole dictionary. |
| StateManager.InterviewStateManager.MarkInterviewComplete | interview/state_manager.py:192-194 | Only the complete flag changes, to true. |
| StateManager.InterviewStateManager.IsInterviewComplete | interview/state_manager.py:196-201 | Returns the complete flag. |
| StateManager.InterviewStateManager.MarkInterviewFinished | chatbot_controller.py:76 | Only the finished flag changes, to true. |
| StateManager.InterviewStateManager.IsInterviewFinished | chatbot_controller.py:512 | Returns the finished flag. |
| StateManager.ResetTwice | interview/state_manager.py:11-24 | Resetting twice gives the initial record, the same as resetting once. |
| StateManager.MarkCompleteTwice | interview/state_manager.py:192-194 | Marking complete twice equals marking it once. |
| Prompts.FillName | chatbot_controller.py:291 | `template.format(name=value)` for templates whose only field is `{name}`: every `{name}` replaced by the value, left to right, the rest copied. |
| Prompts.BasicAcknowledgment | chatbot_controller.py:289-291 | The fixed acknowledgment of the previous step, or `Thank you.` when it has none, with `{name}` filled by the first name when it occurs. |
| Prompts.FillNameWithout | chatbot_controller.py:289-291 | A template without `{name}` is left unchanged by the formatting. |
| Conversation.GetInitialPrompt | chatbot_controller.py:45-63 | Showing the greeting sets only the introduction-shown flag. |
| Conversation.IsExit | chatbot_controller.py:75 | The input is `exit` after stripping and lowering. |
| Conversation.IsBlank | chatbot_controller.py:79 | The input is empty or all whitespace. |
| Conversation.GateOpen | chatbot_controller.py:83 | The greeting has been shown and consent not yet requested. |
| Conversation.ConsentOf | chatbot_controller.py:126-150 | The lowered (not stripped) answer is consent when it is in the yes set, refusal when it is in the no set, and unclear otherwise. |
| Conversation.ConsentStep | chatbot_controller.py:83-90 | At the open gate, consent is marked requested, and given only for a yes. |
| Conversation.ConsentReply | chatbot_controller.py:83-90 | The consent-given text for a yes, the consent-declined text for a no, and the re-prompt otherwise. |
| Conversation.CreateCandidateRecord | chatbot_controller.py:227-233 | One creation call with the profile and the consent flag is appended to the log, and its position becomes the candidate id. |
| Conversation.CanContinueTyping | chatbot_controller.py:506-512 | Typing is allowed while the interview is not finished. |
| Conversation.OrElse | chatbot_controller.py:285 | The model's reply when it has a visible character, otherwise the fixed fallback. |
| Conversation.IndexOf | chatbot_controller.py:171-172 | `list.index`: the first position holding the element. |
| Conversation.ResetChat | chatbot_controller.py:495-504 | After a reset, the session satisfies the invariant and the database log is unchanged. |
| Conversation.ResponsesOf | chatbot_controller.py:241-245 | The keys are exactly the listed technologies with at least one answered pair, each mapped to its pairs. |
| Conversation.ResponsesOfPrefix | chatbot_controller.py:241-245 | One more technology adds its entry when it has answers, which is the loop step. |
| Conversation.InterviewResponses | chatbot_controller.py:240-245 | The keys are exactly the stack's technologies with answers, each mapped to its pairs. |
| Conversation.StoreInterviewResponses | chatbot_controller.py:235-248 | A call is logged exactly when there is a candidate id and consent. That call holds the id and the answered pairs, and nothing else changes. |
| Conversation.StoreProfileAnswer | chatbot_controller.py:161-196 | The consent flags are unchanged and the log is only appended to. Without consent, the log and the id are unchanged. |
| Conversation.StartTechnicalPhase | chatbot_controller.py:178-196 | An empty stack becomes `["general"]`, and questions are generated for the stack. The step becomes `technical_questions`, the first technology is current, and the count is 0. With consent, exactly one candidate creation with the profile is logged and its position becomes the id. Without consent, nothing is logged. |
| Conversation.FlowIndex | chatbot_controller.py:171-176 | Every profile step except `tech_stack` has a next step. |
| Conversation.FlowKeyNotPhase | templates/prompts.py:44-52 | The profile keys are neither `technical_questions` nor `complete`. |
| Conversation.FlowSuccessor | chatbot_controller.py:171-176 | The step after a profile step other than the last is again a profile step. |
| Conversation.StoreTechnicalAnswer | chatbot_controller.py:199-225 | The stack and the questions are unchanged. The step stays technical (with fewer than 3 answers counted) or becomes `complete`, and the current technology stays in the stack. The consent flags and the id are unchanged. The log is only appended to, and never without consent. |
| Conversation.AfterThirdAnswer | chatbot_controller.py:210-225 | The answers are unchanged. Either the next technology becomes current with count 0, or the step becomes `complete`. The log is only appended to, and never without consent. |
| Conversation.StoreUserResponse | chatbot_controller.py:152-225 | Storing an answer keeps the consent flags and only appends to the log, and without consent it logs nothing. |
| Conversation.EffectiveQuestions | chatbot_controller.py:346-353 | The stored questions when there are at least three, and exactly the three default questions otherwise. |
| Conversation.NextState | chatbot_controller.py:250-331 | Preparing the reply keeps the invariant and changes only the current question and the finished flag. The log, the id and the consent are untouched. |
| Conversation.PosedQuestion | chatbot_controller.py:346-425 | The question posed next: entry `questions_asked` of the effective questions, or the last one when the count is past the end. |
| Conversation.TransitionText | chatbot_controller.py:381-408 | The fixed transition: the stack acknowledgment (first technology, line 381) or `Great.` (later ones, line 408), the announcement of the technology, a blank line, then the question. |
| Conversation.TransitionReply | chatbot_controller.py:355-410 | For the first technology, the model's transition from the raw stack answer; otherwise the model's transition from the previous technology in the stack. Either falls back to `TransitionText`. |
| Conversation.FollowUpReply | chatbot_controller.py:427-455 | The model's comment on the last answered pair and the next question, falling back to an acknowledgment and the question; just the acknowledgment form when nothing was answered yet. |
| Conversation.TechnicalReply | chatbot_controller.py:333-455 | The technical-phase reply: a transition before the technology's first question, a follow-up afterwards. |
| Conversation.ProfileReply | chatbot_controller.py:261-294 | The first profile question bare; from the second on, the model's acknowledgment of the answer or the fixed acknowledgment, then the next question. |
| Conversation.ConclusionReply | chatbot_controller.py:301-328 | With consent, the data notice. Otherwise the model's conclusion for the first name and the joined stack, falling back to the fixed conclusion. |
| Conversation.NextReply | chatbot_controller.py:250-331 | The reply by step: the profile reply at a profile key, the technical reply in the technical phase, the conclusion at `complete`, and the fixed fallback otherwise. |
| Conversation.Step | chatbot_controller.py:65-124 | `process_user_input`'s effect on the session: exit sets the finished flag; blank input changes nothing; at the open gate the consent step; an invalid email or phone changes nothing; otherwise the answer is stored and the next message prepared. |
| Conversation.Reply | chatbot_controller.py:65-124 | `process_user_input`'s return value, in the same order of cases: the goodbye, the re-prompt, the consent reply, the model's validation message or the validator's error, or the next message. |
| Conversation.Acknowledged | chatbot_controller.py:453-455 | The fallback is some element of `ACKNOWLEDGMENT_RESPONSES`, a space, then the question. |
| Conversation.InvStartTechnical | chatbot_controller.py:178-196 | Starting the technical phase establishes the invariant. |
| Conversation.InvStoreProfile | chatbot_controller.py:161-196 | A profile answer keeps the invariant. |
| Conversation.InvEnterTechnical | chatbot_controller.py:166-196 | The tech-stack answer keeps the invariant: every parsed technology is a non-empty name. |
| Conversation.InvAdvanceProfile | chatbot_controller.py:170-176 | Moving to the next profile step keeps the invariant. |
| Conversation.InvStoreTechnical | chatbot_controller.py:199-225 | A technical answer keeps the invariant. |
| Conversation.InvStore | chatbot_controller.py:152-225 | Storing any answer keeps the invariant. |
| Controller.ChatbotController.constructor | chatbot_controller.py:17-43 | A new controller holds the initial session, with cleared flags and an empty log, and satisfies `Inv`. |
| Controller.ChatbotController.GetInitialPrompt | chatbot_controller.py:45-63 | Returns the greeting and only sets the introduction-shown flag. It keeps `Inv`. |
| Controller.ChatbotController.ProcessUserInput | chatbot_controller.py:65-124 | The new session is `Step(old, input, llm)` and the reply is `Reply(old, input, llm, pick, texts)`, so every property below holds of the class. The new session satisfies `Inv`. |
| Controller.ChatbotController.ProcessConsentResponse | chatbot_controller.py:126-150 | Only a yes (the lowered answer is in the yes set) records consent. A yes or a no gets its message, and anything else gets no message. Nothing else changes. |
| Controller.ChatbotController.StoreUserResponse | chatbot_controller.py:152-225 | The session becomes `Conversation.StoreUserResponse(old, input, llm)`. |
| Controller.ChatbotController.StoreProfileAnswer | chatbot_controller.py:161-196 | The session becomes `Conversation.StoreProfileAnswer(old, input, llm)`. |
| Controller.ChatbotController.StoreTechStack | chatbot_controller.py:166-196 | At the tech-stack step, the session becomes `Conversation.StoreProfileAnswer(old, input, llm)`. |
| Controller.ChatbotController.StartTechnicalPhase | chatbot_controller.py:178-196 | The session becomes `Conversation.StartTechnicalPhase(old, llm)`. |
| Controller.ChatbotController.StoreTechnicalAnswer | chatbot_controller.py:199-225 | The session becomes `Conversation.StoreTechnicalAnswer(old, input)`. |
| Controller.ChatbotController.AfterThirdAnswer | chatbot_controller.py:210-225 | The session becomes `Conversation.AfterThirdAnswer(old)`. |
| Controller.ChatbotController.CreateCandidateRecord | chatbot_controller.py:227-233 | One creation call with the profile and the consent is logged, and its position becomes the id. |
| Controller.ChatbotController.StoreInterviewResponses | chatbot_controller.py:235-248 | The session becomes `Conversation.StoreInterviewResponses(old)`. |
| Controller.ChatbotController.CollectResponses | chatbot_controller.py:240-245 | The loop returns exactly `InterviewResponses` of the record. |
| Controller.ChatbotController.GetNextResponse | chatbot_controller.py:250-331 | The session becomes `NextState(old)` and the reply is `NextReply(old, ...)`. |
| Controller.ChatbotController.GetProfileResponse | chatbot_controller.py:261-294 | The reply is `ProfileReply`. The first step's question is asked bare. From the second step on, it follows the model's acknowledgment or the fixed one, with `{name}` filled. |
| Controller.ChatbotController.GetConclusionResponse | chatbot_controller.py:301-328 | Only the finished flag changes. The reply is the data notice with consent, and otherwise the model's conclusion or the fixed one. |
| Controller.ChatbotController.GetTechnicalQuestionResponse | chatbot_controller.py:333-455 | Only the current question changes, to `PosedQuestion`. The reply is `TechnicalReply`. |
| Controller.ChatbotController.AskFirstQuestion | chatbot_controller.py:355-410 | The question is stored. The reply is the model's transition (from the profile for the first technology, from the previous technology otherwise) or the fixed transition followed by the question. |
| Controller.ChatbotController.AskNextQuestion | chatbot_controller.py:427-455 | The reply is the model's comment on the last answered pair, or an acknowledgment followed by the question. |
| Controller.ChatbotController.ResetChat | chatbot_controller.py:495-504 | The session becomes `Conversation.ResetChat(old)`, which satisfies `Inv`. |
| Controller.ChatbotController.CanContinueTyping | chatbot_controller.py:506-512 | True exactly when the interview is not finished. |
| ConversationProperties.NewSessionInv | chatbot_controller.py:36-43 | A new controller, before and after the greeting, satisfies the invariant. |
| ConversationProperties.StepKeepsInv | chatbot_controller.py:65-124 | Every turn keeps the invariant. |
| ConversationProperties.Run | chatbot_controller.py:65-124 | Any sequence of turns stays within the invariant. |
| ConversationProperties.ExitTurn | chatbot_controller.py:75-77 | `exit`, in any case and with any surrounding whitespace, sets only the finished flag and returns the goodbye. Afterwards typing is no longer allowed. |
| ConversationProperties.BlankTurn | chatbot_controller.py:79-80 | Blank input changes nothing and gets the fixed re-prompt. |
| ConversationProperties.ConsentTurn | chatbot_controller.py:83-90 | At the open gate, the answer closes the gate whatever it is, and only a yes records consent. The step does not advance. The reply is the consent-given, consent-declined or re-prompt text. |
| ConversationProperties.StepConsentFlags | chatbot_controller.py:83-90 | No turn withdraws the request flag or consent, and none changes the greeting flag. Consent is only given at the open gate by a yes. |
| ConversationProperties.GateRunsOnce | chatbot_controller.py:83-84 | Once answered, the gate stays closed for any number of further turns. |
| ConversationProperties.ConsentNotTrimmed | chatbot_controller.py:136-144 | `YES` is consent and `No` is refusal, but ` yes` (with a leading space) is neither. |
| ConversationProperties.AcceptedStep | chatbot_controller.py:115-119 | An answer that passes the checks is stored, then the next message is prepared. |
| ConversationProperties.AcceptedReply | chatbot_controller.py:115-124 | The reply to such an answer is the next message for the updated session. |
| ConversationProperties.PhasesAfterProfile | templates/prompts.py:44-52 | `technical_questions` and `complete` are not profile keys. |
| ConversationProperties.TechnicalStep | chatbot_controller.py:93-119 | In the technical phase, every visible input that is not `exit` is accepted and stored as a technical answer. |
| ConversationProperties.InvalidTurn | chatbot_controller.py:93-113 | Only an email or phone answer can be refused. A refused answer changes nothing, and the reply is the model's explanation or, when that is empty, the validator's error. |
| ConversationProperties.ProfileTurn | chatbot_controller.py:161-176 | A profile answer other than the stack is stored under its step, and the step moves to the next flow key. The log, the id and the consent are untouched. |
| ConversationProperties.TechStackTurn | chatbot_controller.py:161-196 | The stack answer is stored and parsed, and questions are generated. The first technology becomes current with count 0, and its first stored question is posed. With consent, one creation is logged and becomes the id. Without consent, nothing is logged. |
| ConversationProperties.PosedQuestionStored | chatbot_controller.py:412-425 | In the technical phase, the question stored as current is `tech_questions[current_tech][questions_asked]`. |
| ConversationProperties.TechnicalAnswerPairs | chatbot_controller.py:199-204 | A technical answer appends one (current question, answer) pair to the current technology, and to no other. |
| ConversationProperties.TechnicalAdvance | chatbot_controller.py:206-221 | The first two answers keep the technology and count up. The third moves to the next technology with count 0, or after the last technology sets `complete` and the complete flag. |
| ConversationProperties.Remaining | chatbot_controller.py:206-221 | In the technical phase at least one answer is still needed. |
| ConversationProperties.IndexOfDistinct | chatbot_controller.py:212 | In a stack without repetitions, `index` of the technology at position i is i. |
| ConversationProperties.TechnicalProgress | chatbot_controller.py:206-221 | With distinct technologies, each answer brings the end one answer closer, and the last needed answer completes the interview. |
| ConversationProperties.FinishesAfterRemaining | chatbot_controller.py:199-221 | With distinct technologies, exactly `Remaining` further visible, non-exit answers reach `complete`. |
| ConversationProperties.RepeatedTechStep | chatbot_controller.py:206-221 | While the current technology comes before a repeated entry of the stack, every turn keeps it there and stays in the technical phase. |
| ConversationProperties.RepeatedTechAnswer | chatbot_controller.py:206-221 | The same for a stored technical answer: after the third answer, `index` finds the first occurrence, so the next technology is still before the repetition. |
| ConversationProperties.NextBeforeRepeat | chatbot_controller.py:211-215 | If entry j repeats an earlier one, then for every i < j the first occurrence of entry i+1 lies before j. |
| ConversationProperties.RepeatedTechNeverCompletes | chatbot_controller.py:206-221 | From such a state, no sequence of inputs leaves the technical phase. |
| ConversationProperties.NotDistinctNeverCompletes | chatbot_controller.py:178-221 | A technical phase that starts at the first technology of a stack with any repeated technology never reaches `complete`, whatever the inputs. |
| ConversationProperties.StepRank | templates/prompts.py:44-52 | Profile keys are ranked by their flow position, then `technical_questions`, then `complete`. |
| ConversationProperties.FlowKeysDistinct | templates/prompts.py:44-52 | The profile keys are pairwise different. |
| ConversationProperties.StepMovesForward | chatbot_controller.py:65-124 | A turn keeps the step's rank or raises it by exactly one. |
| ConversationProperties.ProfileMovesForward | chatbot_controller.py:170-176 | An accepted profile answer other than the stack moves to the next-ranked step. |
| ConversationProperties.RefusedTurn | chatbot_controller.py:75-113 | A turn that is not accepted (exit, blank, consent or invalid) changes at most the finished flag and logs nothing. |
| ConversationProperties.RunMovesForward | chatbot_controller.py:65-124 | No sequence of turns lowers the step's rank. |
| ConversationProperties.CountsAppend | chatbot_controller.py:227-248 | Creation and store counts add up over concatenated logs. |
| ConversationProperties.TechnicalLog | chatbot_controller.py:199-225 | A technical answer logs nothing, or it completes the interview and logs exactly one store of the responses. |
| ConversationProperties.StepLog | chatbot_controller.py:65-124 | A turn appends at most one call. A creation is only logged by the stack answer entering the technical phase, and a store only by the answer that completes it. |
| ConversationProperties.StepLogEntry | chatbot_controller.py:178-225 | The same, for the single appended entry. |
| ConversationProperties.RunLogsOnce | chatbot_controller.py:178-248 | Any sequence of turns logs at most one creation and at most one store. None is created once the technical phase has started, and none stored once complete. |
| ConversationProperties.LogSplit | chatbot_controller.py:65-124 | Calls added over two stretches of turns are the first stretch's calls followed by the second's. |
| ConversationProperties.CountsBounded | chatbot_controller.py:227-248 | A log holds no more creations or stores than entries. |
| ConversationProperties.ComposeCounts | chatbot_controller.py:178-248 | One turn's calls followed by the calls of a later stretch keep the at-most-once bounds. |
| ConversationProperties.CompletionTurn | chatbot_controller.py:301-328 | The answer that completes the interview also finishes it, so typing stops. The reply is the data notice with consent, and otherwise the model's conclusion or the fixed one. |
| ConversationProperties.ExitDoesNotBlock | chatbot_controller.py:75-77 | After `exit` typing is disallowed, yet a name typed afterwards is still stored and the interview moves to the email step. |
| ConversationProperties.SampleExit | chatbot_controller.py:75 | `exit` is the exit command. |
| ConversationProperties.RunOne | chatbot_controller.py:65-124 | Running one input is one turn. |
| ConversationProperties.RunTwo | chatbot_controller.py:65-124 | Running two inputs is two turns. |
| ConversationProperties.NameAnswer | chatbot_controller.py:161-176 | A name answer is stored with its first word, and the email is asked next. |
| ConversationProperties.NameThenEmail | templates/prompts.py:44-46 | `name` is the first flow key and `email` the second. |
| ConversationProperties.StepPersistence | chatbot_controller.py:194-196 | A turn only appends to the log. Without consent after the turn, it writes nothing. |
| ConversationProperties.RunPersistence | chatbot_controller.py:224-238 | Over any session the log only grows. A candidate who has not consented by the end started without consent and has had nothing written. |
| ConversationProperties.ResetProperties | chatbot_controller.py:495-504 | A reset forgets the interview and the consent but keeps the log. Resetting twice equals resetting once, and the next greeting reopens the consent gate. |

## Left out

- The language model: `models/llm_client.py` is an oracle from requests to strings. Network calls, API keys, the `str.format` fallback and the chat history are not modelled. The oracle is deterministic: it gives one fixed reply per request for the whole session, whereas the real client samples at temperature 0.8, so the same request can get different replies.
- The database: `database/models.py` is replaced by a log of calls. Its storage, uuids, timestamps, retention and deletion are not modelled.
- Chat history: `add_to_history`, `get_chat_history` and the history reset in `reset_chat` are display-only and not modelled.
- `get_candidate_info`, `is_interview_complete` and `get_current_interview_state` of the controller just forward to the state manager's getters, which are modelled. The controller's forwarding methods are not.
- Randomness: `random.choice` is replaced by the parameter `pick`. Every possible choice is covered, but the distribution is not modelled.
- Text handling: strings are sequences of characters. `\w`, `\s`, `\d`, `lower` and `strip` are modelled on ASCII. Unicode whitespace, letters and case mapping are not.
- Prompt templates: the LLM prompt templates are not modelled. A request names its template and parameters.
- Wording: the fixed replies are a `Texts` value. The turn lemmas hold for any wording, and the controller is constructed with the repository's wording (`PROMPTS`).
- `main.py`: the Streamlit UI is not part of this model.
- Controller.ChatbotController.ProcessUserInput: requires `Inv(Current())`, which the source does not state. `Inv` holds from construction and after every turn and reset, so every reachable controller meets it.
- Controller.ChatbotController.StoreUserResponse: requires `Inv(Current())`, for the same reason.
- Controller.ChatbotController.GetNextResponse: requires `Inv(Current())`, for the same reason.
- StateManager.InterviewStateManager.GetTechQuestions: requires a non-empty technology. With an empty or missing one the source returns the whole dictionary, which `GetAllTechQuestions` models.
- StateManager.InterviewStateManager.GetAskedQuestions: requires a non-empty technology, for the same reason; `GetAllAskedQuestions` models the other case.
- StateManager.InterviewStateManager.MarkInterviewFinished: the source calls it but the state manager does not define it, so the real exit command and closing turn would raise `AttributeError`. The model adds the missing flag and models the intended behaviour.
- FinishesAfterRemaining: termination is proved only for stacks without repeated technologies. With any repetition the interview never completes, as `NotDistinctNeverCompletes` shows.
