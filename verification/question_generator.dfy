/** Generation of exactly three questions per technology
    (interview/question_generator.py). The language model is the parameter
    `llm`, mapping a technology to the raw reply text ("" on failure). */
module QuestionGenerator {
  import opened TechParser

  /** The `while len(questions) < 3: questions.append(defaults[len(questions)])`
      loop as a value: slot k below 3 that the parsed list leaves open gets
      `defaults[k]`. */
  function Padded(qs: seq<string>, defaults: seq<string>): (r: seq<string>)
    requires |defaults| >= 3
    ensures |r| == if |qs| >= 3 then |qs| else 3
    ensures forall k :: 0 <= k < |qs| ==> r[k] == qs[k]
    ensures forall k :: |qs| <= k < 3 ==> r[k] == defaults[k]
    decreases 3 - |qs|
  {
    if |qs| >= 3 then qs else Padded(qs + [defaults[|qs|]], defaults)
  }

  /** The questions stored for `tech` when the model replied `response`. */
  function QuestionsFor(tech: string, response: string): (qs: seq<string>)
    ensures |qs| == 3
  {
    Padded(ParsedQuestions(response), DefaultQuestions(tech))[..3]
  }

  /** Parsed questions keep their order at the front, padding slot k holds the
      k-th default question, a failed call yields exactly the defaults, and with
      three or more parsed questions the first three are kept and no default is used. */
  lemma QuestionsForShape(tech: string, response: string)
    ensures var qs := QuestionsFor(tech, response);
            var parsed := ParsedQuestions(response);
            && (forall k :: 0 <= k < 3 && k < |parsed| ==> qs[k] == parsed[k])
            && (forall k :: |parsed| <= k < 3 ==> qs[k] == DefaultQuestions(tech)[k])
            && (response == "" ==> qs == DefaultQuestions(tech))
            && (|parsed| >= 3 ==> qs == parsed[..3])
  {
    var parsed := ParsedQuestions(response);
    var qs := QuestionsFor(tech, response);
    if response == "" {
      assert parsed == [];
      assert forall k :: 0 <= k < 3 ==> qs[k] == DefaultQuestions(tech)[k];
    }
  }

  /** The dictionary `generate_tech_questions` builds, as a value: the
      technologies are entered in stack order, a repeated one again with the
      same questions, because the model's oracle gives one fixed reply per
      request (the real client samples, so a repeat could get new ones). */
  function GeneratedQuestions(techStack: seq<string>, llm: string -> string): (m: map<string, seq<string>>)
    ensures m.Keys == set t | t in techStack
    ensures forall t :: t in m ==> |m[t]| == 3
  {
    if techStack == [] then map[]
    else
      var init := techStack[..|techStack| - 1];
      var tech := techStack[|techStack| - 1];
      assert forall t :: t in techStack <==> t in init || t == tech by {
        assert techStack == init + [tech];
      }
      GeneratedQuestions(init, llm)[tech := QuestionsFor(tech, llm(tech))]
  }

  /** Each technology's entry is the padded and truncated parse of the model's
      reply for it. */
  lemma {:induction false} GeneratedQuestionsValues(techStack: seq<string>, llm: string -> string)
    ensures forall t :: t in GeneratedQuestions(techStack, llm) ==> GeneratedQuestions(techStack, llm)[t] == QuestionsFor(t, llm(t))
  {
    if techStack != [] {
      GeneratedQuestionsValues(techStack[..|techStack| - 1], llm);
    }
  }

  /** One more technology of the stack adds its entry. */
  lemma GeneratedQuestionsPrefix(techStack: seq<string>, i: nat, llm: string -> string)
    requires i < |techStack|
    ensures GeneratedQuestions(techStack[..i + 1], llm)
            == GeneratedQuestions(techStack[..i], llm)[techStack[i] := QuestionsFor(techStack[i], llm(techStack[i]))]
  {
    assert techStack[..i + 1][..i] == techStack[..i];
  }

  /** `QuestionGenerator.generate_tech_questions(tech_stack)`. */
  method GenerateTechQuestions(techStack: seq<string>, llm: string -> string)
    returns (techQuestions: map<string, seq<string>>)
    ensures techQuestions == GeneratedQuestions(techStack, llm)
  {
    techQuestions := map[];
    for i := 0 to |techStack|
      invariant techQuestions == GeneratedQuestions(techStack[..i], llm)
    {
      var tech := techStack[i];
      var response := llm(tech);
      var questions := ParseQuestionsFromResponse(response);
      var defaultQuestions := DefaultQuestions(tech);
      while |questions| < 3
        invariant Padded(questions, defaultQuestions) == Padded(ParsedQuestions(response), defaultQuestions)
        decreases 3 - |questions|
      {
        questions := questions + [defaultQuestions[|questions|]];
      }
      GeneratedQuestionsPrefix(techStack, i, llm);
      techQuestions := techQuestions[tech := questions[..3]];
    }
    assert techStack[..|techStack|] == techStack;
  }
}
