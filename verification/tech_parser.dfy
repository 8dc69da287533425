/** Parsing of the candidate's free-text tech stack and of the numbered question
    list the language model returns, plus the fixed fallback questions
    (utils/tech_parser.py). */
module TechParser {
  import opened Text

  /** The `max_techs` default of `parse_tech_stack`, used by the controller. */
  const MAX_TECHS: int := 4

  /** `[tech.strip().lower() for tech in pieces]` */
  function Cleaned(pieces: seq<string>): (r: seq<string>)
    ensures |r| == |pieces|
  {
    seq(|pieces|, i requires 0 <= i < |pieces| => Lower(Strip(pieces[i])))
  }

  /** `[tech for tech in ts if tech]` */
  function NonEmpty(ts: seq<string>): (r: seq<string>)
    ensures |r| <= |ts|
    ensures forall i :: 0 <= i < |r| ==> r[i] != "" && r[i] in ts
  {
    if ts == [] then []
    else (if ts[0] != "" then [ts[0]] else []) + NonEmpty(ts[1..])
  }

  /** The cleaned, non-empty comma-separated tokens of the input, in order. */
  function CleanTokens(input: string): seq<string>
  {
    NonEmpty(Cleaned(Split(input, ',')))
  }

  /** End index of Python's slice `xs[:n]` on a list of length `len`
      (a negative `n` counts from the end). */
  function SliceEnd(n: int, len: nat): (e: nat)
    ensures e <= len
    ensures n >= 0 ==> e == if n < len then n else len
  {
    if n >= 0 then (if n < len then n else len)
    else if len + n > 0 then len + n else 0
  }

  /** `parse_tech_stack(input, max_techs)`: the first `max_techs` cleaned tokens,
      or `["general"]` when none survive. */
  function ParseTechStack(input: string, maxTechs: int): (r: seq<string>)
    ensures r != []
    ensures forall i :: 0 <= i < |r| ==> IsCleanToken(r[i])
    ensures maxTechs >= 1 ==> |r| <= maxTechs
  {
    var tokens := CleanTokens(input);
    var kept := tokens[..SliceEnd(maxTechs, |tokens|)];
    if kept == [] then
      GeneralIsClean();
      ["general"]
    else
      CleanTokensShape(input);
      assert forall i :: 0 <= i < |kept| ==> kept[i] == tokens[i];
      kept
  }

  /** What `parse_tech_stack` keeps of a token: non-empty, stripped, lower case, comma-free. */
  predicate IsCleanToken(t: string) {
    t != "" && IsStripped(t) && NoUpper(t) && ',' !in t
  }

  /** The result is the fallback or an order-preserving prefix of the cleaned
      tokens; the fallback is used exactly when nothing is kept, and with
      `max_techs >= 1` the prefix is as long as the limit allows. */
  lemma ParseTechStackPrefix(input: string, maxTechs: int)
    ensures var r := ParseTechStack(input, maxTechs);
            r == ["general"] || r <= CleanTokens(input)
    ensures CleanTokens(input) == [] ==> ParseTechStack(input, maxTechs) == ["general"]
    ensures maxTechs == 0 ==> ParseTechStack(input, maxTechs) == ["general"]
    ensures var c := CleanTokens(input);
            maxTechs >= 1 && c != [] ==>
              ParseTechStack(input, maxTechs) <= c &&
              |ParseTechStack(input, maxTechs)| == if maxTechs < |c| then maxTechs else |c|
  {
  }

  lemma GeneralIsClean()
    ensures IsCleanToken("general")
  {
    var g := "general";
    assert g[0] == 'g' && g[6] == 'l';
  }

  /** Every cleaned token is non-empty, stripped, lower case and comma-free. */
  lemma CleanTokensShape(input: string)
    ensures forall t :: t in CleanTokens(input) ==> IsCleanToken(t)
  {
    var pieces := Split(input, ',');
    var c := Cleaned(pieces);
    forall t | t in NonEmpty(c) ensures IsCleanToken(t) {
      var i :| 0 <= i < |c| && c[i] == t;
      CleanedPiece(pieces[i]);
    }
  }

  /** Cleaning one comma-free piece gives a stripped, lower-case, comma-free token. */
  lemma CleanedPiece(piece: string)
    requires ',' !in piece
    ensures var t := Lower(Strip(piece)); IsStripped(t) && NoUpper(t) && ',' !in t
  {
    var st := Strip(piece);
    var t := Lower(st);
    assert ',' !in st;
    assert forall k :: 0 <= k < |t| ==> t[k] == LowerChar(st[k]);
    if t != [] {
      assert IsSpace(t[0]) == IsSpace(st[0]);
      assert IsSpace(t[|t| - 1]) == IsSpace(st[|st| - 1]);
    }
  }

  /** Filtering distributes over concatenation, so kept tokens stay in input order. */
  lemma {:induction false} NonEmptyAppend(a: seq<string>, b: seq<string>)
    ensures NonEmpty(a + b) == NonEmpty(a) + NonEmpty(b)
  {
    if a != [] {
      assert (a + b)[1..] == a[1..] + b;
      NonEmptyAppend(a[1..], b);
    } else {
      assert a + b == b;
    }
  }

  /** A token survives filtering exactly when it is non-empty. */
  lemma NonEmptyMembership(ts: seq<string>, t: string)
    ensures t in NonEmpty(ts) <==> t in ts && t != ""
  {
    if ts != [] {
      NonEmptyMembership(ts[1..], t);
      assert ts == [ts[0]] + ts[1..];
    }
  }

  /** Blank input yields the single fallback technology. */
  lemma ParseEmptyStack()
    ensures ParseTechStack("", MAX_TECHS) == ["general"]
  {
    assert Split("", ',') == [""];
    assert Cleaned([""]) == [Lower(Strip(""))];
    assert Strip("") == "";
  }

  // ---------------------------------------------------------------------------
  // parse_questions_from_response

  /** Number of leading ASCII digits (`\d+`). */
  function DigitRun(s: string): (n: nat)
    ensures n <= |s|
    ensures forall i :: 0 <= i < n ==> '0' <= s[i] <= '9'
    ensures n < |s| ==> !('0' <= s[n] <= '9')
  {
    if s != [] && '0' <= s[0] <= '9' then 1 + DigitRun(s[1..]) else 0
  }

  /** `re.sub(r'^\d+\.?\s*', '', line)`: drop leading digits, then one optional
      period and the whitespace after it; no leading digit means no match. */
  function StripNumbering(line: string): (q: string)
    ensures |q| <= |line| && q == line[|line| - |q|..]
  {
    var d := DigitRun(line);
    if d == 0 then line
    else
      var rest := line[d..];
      var afterDot := if rest != [] && rest[0] == '.' then rest[1..] else rest;
      TrimLeft(afterDot)
  }

  /** A line the parser keeps: after strip, non-empty and starting `1.`, `2.` or `3.`. */
  predicate IsNumberedLine(line: string) {
    var t := Strip(line);
    t != "" && (StartsWith(t, "1.") || StartsWith(t, "2.") || StartsWith(t, "3."))
  }

  /** What one line contributes to the question list. */
  function QuestionOf(line: string): seq<string> {
    if IsNumberedLine(line) then [StripNumbering(Strip(line))] else []
  }

  /** The outputs of `f` on each line, concatenated in line order. */
  function FlatMap(lines: seq<string>, f: string -> seq<string>): seq<string>
  {
    if lines == [] then []
    else FlatMap(lines[..|lines| - 1], f) + f(lines[|lines| - 1])
  }

  /** The questions contributed by `lines`, in line order. */
  function QuestionsFromLines(lines: seq<string>): seq<string> {
    FlatMap(lines, QuestionOf)
  }

  /** `parse_questions_from_response(response)` as a value. */
  function ParsedQuestions(response: string): (qs: seq<string>)
    ensures response == "" ==> qs == []
  {
    if response == "" then [] else QuestionsFromLines(Split(response, '\n'))
  }

  /** `parse_questions_from_response`: scan the lines, keep the numbered ones. */
  method ParseQuestionsFromResponse(response: string) returns (questions: seq<string>)
    ensures questions == ParsedQuestions(response)
  {
    questions := [];
    if response != "" {
      var lines := Split(response, '\n');
      for k := 0 to |lines|
        invariant questions == QuestionsFromLines(lines[..k])
      {
        FlatMapPrefix(lines, k, QuestionOf);
        var line := Strip(lines[k]);
        if line != "" && (StartsWith(line, "1.") || StartsWith(line, "2.") || StartsWith(line, "3.")) {
          var question := StripNumbering(line);
          questions := questions + [question];
        }
      }
      assert lines[..|lines|] == lines;
    }
  }

  /** A kept line `N.` loses exactly its two-character prefix and the blanks after it. */
  lemma NumberedQuestionText(line: string)
    requires StartsWith(line, "1.") || StartsWith(line, "2.") || StartsWith(line, "3.")
    ensures StripNumbering(line) == TrimLeft(line[2..])
  {
    assert line[0] == '1' || line[0] == '2' || line[0] == '3';
    assert line[1] == '.';
    assert DigitRun(line[1..]) == 0;
    assert DigitRun(line) == 1;
    assert line[1..][1..] == line[2..];
  }

  /** Lines bulleted `- `, numbered `1)` or numbered with two digits contribute nothing. */
  lemma UnsupportedNumbering(line: string)
    requires var t := Strip(line); StartsWith(t, "- ") || StartsWith(t, "1)") || StartsWith(t, "10.")
    ensures QuestionOf(line) == []
  {
    var t := Strip(line);
    assert t[1] != '.' by {
      if StartsWith(t, "- ") {
        assert t[1] == t[..2][1];
      } else if StartsWith(t, "1)") {
        assert t[1] == t[..2][1];
      } else {
        assert t[1] == t[..3][1];
      }
    }
    assert t[..2][1] == t[1];
    assert !IsNumberedLine(line);
  }

  /** Adding a line at the end adds its output at the end. */
  lemma FlatMapSnoc(lines: seq<string>, line: string, f: string -> seq<string>)
    ensures FlatMap(lines + [line], f) == FlatMap(lines, f) + f(line)
  {
    assert (lines + [line])[..|lines|] == lines;
  }

  /** One more line of a prefix adds that line's output. */
  lemma FlatMapPrefix(lines: seq<string>, k: nat, f: string -> seq<string>)
    requires k < |lines|
    ensures FlatMap(lines[..k + 1], f) == FlatMap(lines[..k], f) + f(lines[k])
  {
    assert lines[..k + 1][..k] == lines[..k];
  }

  /** `FlatMap` of concatenated lists is the concatenation of the two. */
  lemma {:induction false} FlatMapAppend(a: seq<string>, b: seq<string>, f: string -> seq<string>)
    ensures FlatMap(a + b, f) == FlatMap(a, f) + FlatMap(b, f)
    decreases |b|
  {
    if b == [] {
      assert a + b == a;
    } else {
      var init := b[..|b| - 1];
      var last := b[|b| - 1];
      assert b == init + [last];
      assert a + b == (a + init) + [last];
      FlatMapAppend(a, init, f);
      FlatMapSnoc(init, last, f);
      FlatMapSnoc(a + init, last, f);
      var x, y, z := FlatMap(a, f), FlatMap(init, f), f(last);
      assert (x + y) + z == x + (y + z);
    }
  }

  /** Every output comes from some line, and when `f` yields at most one
      element per line there are at most as many outputs as lines. */
  lemma {:induction false} FlatMapFrom(lines: seq<string>, f: string -> seq<string>)
    ensures forall q :: q in FlatMap(lines, f) ==> exists i :: 0 <= i < |lines| && q in f(lines[i])
    ensures (forall x :: |f(x)| <= 1) ==> |FlatMap(lines, f)| <= |lines|
  {
    if lines != [] {
      var init := lines[..|lines| - 1];
      FlatMapFrom(init, f);
      forall q | q in FlatMap(lines, f) ensures exists i :: 0 <= i < |lines| && q in f(lines[i]) {
        if q in FlatMap(init, f) {
          var i :| 0 <= i < |init| && q in f(init[i]);
          assert lines[i] == init[i];
        }
      }
    }
  }

  /** Questions of concatenated line lists are concatenated: output order is line order. */
  lemma QuestionsFromLinesAppend(a: seq<string>, b: seq<string>)
    ensures QuestionsFromLines(a + b) == QuestionsFromLines(a) + QuestionsFromLines(b)
  {
    FlatMapAppend(a, b, QuestionOf);
  }

  /** A kept line yields exactly its de-numbered text (the text after its
      `N.` and the blanks that follow); any other line yields nothing. */
  lemma QuestionOfShape(line: string)
    ensures |QuestionOf(line)| <= 1
    ensures IsNumberedLine(line) ==> QuestionOf(line) == [StripNumbering(Strip(line))]
    ensures IsNumberedLine(line) ==> QuestionOf(line) == [TrimLeft(Strip(line)[2..])]
    ensures !IsNumberedLine(line) ==> QuestionOf(line) == []
  {
    if IsNumberedLine(line) {
      NumberedQuestionText(Strip(line));
    }
  }

  /** At most one question per line, and each question is the de-numbered text
      of a kept line. */
  lemma QuestionsFromLinesShape(lines: seq<string>)
    ensures |QuestionsFromLines(lines)| <= |lines|
    ensures forall q :: q in QuestionsFromLines(lines) ==>
              exists i :: 0 <= i < |lines| && IsNumberedLine(lines[i]) && q == StripNumbering(Strip(lines[i]))
  {
    forall x { QuestionOfShape(x); }
    FlatMapFrom(lines, QuestionOf);
    forall q | q in QuestionsFromLines(lines)
      ensures exists i :: 0 <= i < |lines| && IsNumberedLine(lines[i]) && q == StripNumbering(Strip(lines[i]))
    {
      var i :| 0 <= i < |lines| && q in QuestionOf(lines[i]);
    }
  }

  /** The positions of the kept lines. */
  function NumberedLines(lines: seq<string>): set<int> {
    set i | 0 <= i < |lines| && IsNumberedLine(lines[i])
  }

  /** Conversely, every kept line contributes its question, right after
      the questions of the lines before it. */
  lemma QuestionsFromLinesComplete(lines: seq<string>, i: nat)
    requires i < |lines| && IsNumberedLine(lines[i])
    ensures var qs := QuestionsFromLines(lines);
            var k := |QuestionsFromLines(lines[..i])|;
            && k < |qs| && qs[k] == StripNumbering(Strip(lines[i]))
            && StripNumbering(Strip(lines[i])) in qs
  {
    var line := lines[i];
    var before, after := lines[..i], lines[i + 1..];
    var q := StripNumbering(Strip(line));
    assert lines == before + ([line] + after);
    QuestionsFromLinesAppend(before, [line] + after);
    QuestionsFromLinesAppend([line], after);
    OneLine(line);
    assert QuestionOf(line) == [q];
    var qs0, qs1 := QuestionsFromLines(before), QuestionsFromLines(after);
    assert QuestionsFromLines(lines) == qs0 + ([q] + qs1);
    assert (qs0 + ([q] + qs1))[|qs0|] == q;
  }

  /** A single line contributes exactly its own output. */
  lemma OneLine(line: string)
    ensures QuestionsFromLines([line]) == QuestionOf(line)
  {
    FlatMapOne(line, QuestionOf);
  }

  lemma FlatMapOne(x: string, f: string -> seq<string>)
    ensures FlatMap([x], f) == f(x)
  {
    assert [x][..0] == [];
  }

  /** One more line adds its position when it is kept. */
  lemma NumberedLinesSnoc(init: seq<string>, last: string)
    ensures var extra: set<int> := if IsNumberedLine(last) then {|init|} else {};
            && NumberedLines(init + [last]) == NumberedLines(init) + extra
            && |NumberedLines(init + [last])| == |NumberedLines(init)| + |extra|
  {
    var lines := init + [last];
    var extra: set<int> := if IsNumberedLine(last) then {|init|} else {};
    forall i | 0 <= i < |init| ensures lines[i] == init[i] { }
    assert NumberedLines(lines) == NumberedLines(init) + extra;
    assert |init| !in NumberedLines(init);
  }

  /** There are exactly as many questions as kept lines. */
  lemma {:induction false} QuestionsFromLinesCount(lines: seq<string>)
    ensures |QuestionsFromLines(lines)| == |NumberedLines(lines)|
    decreases |lines|
  {
    if lines == [] {
      assert NumberedLines(lines) == {};
    } else {
      var n := |lines| - 1;
      var init, last := lines[..n], lines[n];
      assert lines == init + [last];
      QuestionsFromLinesCount(init);
      FlatMapSnoc(init, last, QuestionOf);
      QuestionOfShape(last);
      NumberedLinesSnoc(init, last);
    }
  }

  /** A one-line reply bulleted `- ` yields no questions. */
  lemma BulletedLineHasNoQuestions(reply: string)
    requires '\n' !in reply && IsStripped(reply) && StartsWith(reply, "- ")
    ensures ParsedQuestions(reply) == []
  {
    SplitWithoutSeparator(reply, '\n');
    StripStripped(reply);
    UnsupportedNumbering(reply);
    assert reply != "";
    assert [reply][..0] == [];
    assert QuestionsFromLines([reply]) == QuestionsFromLines([]) + QuestionOf(reply);
  }

  lemma BulletedReplyExample()
    ensures ParsedQuestions("- What is X?") == []
  {
    var s := "- What is X?";
    assert s[0] == '-' && s[1] == ' ' && s[|s| - 1] == '?';
    assert forall i :: 0 <= i < |s| ==> s[i] != '\n';
    BulletedLineHasNoQuestions(s);
  }

  /** Splitting at a separator splits the two sides independently. */
  lemma {:induction false} SplitAppend(x: string, y: string, sep: char)
    ensures Split(x + [sep] + y, sep) == Split(x, sep) + Split(y, sep)
    decreases |x|
  {
    if x == [] {
      assert x + [sep] + y == [sep] + y;
    } else {
      assert (x + [sep] + y)[1..] == x[1..] + [sep] + y;
      SplitAppend(x[1..], y, sep);
    }
  }

  /** A stripped line `N. text`, for `N` one of 1, 2, 3 and `text` starting
      with a visible character. */
  predicate IsPlainNumbered(line: string) {
    |line| >= 4 && '1' <= line[0] <= '3' && line[1] == '.' && line[2] == ' '
    && !IsSpace(line[3]) && !IsSpace(line[|line| - 1])
  }

  /** Such a line yields its `text`. */
  lemma NumberedLineQuestion(line: string)
    requires IsPlainNumbered(line)
    ensures QuestionOf(line) == [line[3..]]
  {
    StripStripped(line);
    assert line[..2] == [line[0], '.'];
    assert StartsWith(line, "1.") || StartsWith(line, "2.") || StartsWith(line, "3.");
    NumberedQuestionText(line);
    assert LeadingSpaces(line[2..][1..]) == 0;
    assert line[2..][1..] == line[3..];
  }

  /** Three lines joined by newlines are split back into those lines. */
  lemma ThreeLines(a: string, b: string, c: string)
    requires '\n' !in a && '\n' !in b && '\n' !in c
    ensures Split(a + "\n" + b + "\n" + c, '\n') == [a, b, c]
  {
    SplitAppend(a + "\n" + b, c, '\n');
    SplitAppend(a, b, '\n');
    SplitWithoutSeparator(a, '\n');
    SplitWithoutSeparator(b, '\n');
    SplitWithoutSeparator(c, '\n');
  }

  /** The outputs of three lines, in order. */
  lemma FlatMapThree(a: string, b: string, c: string, f: string -> seq<string>)
    ensures FlatMap([a, b, c], f) == f(a) + f(b) + f(c)
  {
    FlatMapOne(a, f);
    assert [a, b] == [a] + [b];
    FlatMapSnoc([a], b, f);
    assert [a, b, c] == [a, b] + [c];
    FlatMapSnoc([a, b], c, f);
  }

  /** A reply of three lines gives the questions of the three lines, in order. */
  lemma ThreeLineReply(a: string, b: string, c: string)
    requires '\n' !in a && '\n' !in b && '\n' !in c
    ensures ParsedQuestions(a + "\n" + b + "\n" + c) == QuestionOf(a) + QuestionOf(b) + QuestionOf(c)
  {
    var reply := a + "\n" + b + "\n" + c;
    assert reply != "" by { assert |reply| > 0; }
    ThreeLines(a, b, c);
    FlatMapThree(a, b, c, QuestionOf);
  }

  /** A reply of three lines `N. text` gives the three texts, in order. */
  lemma ThreeNumberedLines(a: string, b: string, c: string)
    requires '\n' !in a && '\n' !in b && '\n' !in c
    requires IsPlainNumbered(a) && IsPlainNumbered(b) && IsPlainNumbered(c)
    ensures ParsedQuestions(a + "\n" + b + "\n" + c) == [a[3..], b[3..], c[3..]]
  {
    ThreeLineReply(a, b, c);
    NumberedLineQuestion(a);
    NumberedLineQuestion(b);
    NumberedLineQuestion(c);
    Singletons(QuestionOf(a), QuestionOf(b), QuestionOf(c), a[3..], b[3..], c[3..]);
  }

  lemma Singletons(qa: seq<string>, qb: seq<string>, qc: seq<string>, x: string, y: string, z: string)
    requires qa == [x] && qb == [y] && qc == [z]
    ensures qa + qb + qc == [x, y, z]
  {
  }

  /** The design's example: a reply of three numbered lines gives the three
      questions without their numbers. */
  lemma NumberedReplyExample(a: string, b: string, c: string)
    requires a == "1. What is X?" && b == "2. Explain Y." && c == "3. Compare Z."
    ensures ParsedQuestions(a + "\n" + b + "\n" + c) == ["What is X?", "Explain Y.", "Compare Z."]
  {
    ExampleLine(a, "What is X?");
    ExampleLine(b, "Explain Y.");
    ExampleLine(c, "Compare Z.");
    ThreeNumberedLines(a, b, c);
  }

  /** A line of the example: its number, a period and a blank before `text`. */
  lemma ExampleLine(line: string, text: string)
    requires |line| == |text| + 3 && line[3..] == text && '1' <= line[0] <= '3' && line[1] == '.' && line[2] == ' '
    requires |text| > 0 && !IsSpace(text[0]) && !IsSpace(text[|text| - 1]) && '\n' !in text
    ensures IsPlainNumbered(line) && '\n' !in line
  {
    assert line[3] == text[0] && line[|line| - 1] == text[|text| - 1];
    assert line == line[..3] + text;
  }

  // ---------------------------------------------------------------------------
  // get_default_questions

  /** The fixed text around the technology in each default question. */
  const ASK_PRINCIPLES: string := "Can you explain the core " + "principles or concepts of "
  const ASK_TRADEOFFS: string := "What are the main advantages " + "and limitations of "
  const TRADEOFFS_TAIL: string := " compared to alternatives?"
  const ASK_ARCHITECTURE: string := "How would you describe the " + "architecture or structure " + "of a typical "
  const ARCHITECTURE_TAIL: string := " application?"

  /** `get_default_questions(tech)`: three fixed questions naming the technology. */
  function DefaultQuestions(tech: string): (qs: seq<string>)
    ensures |qs| == 3
  {
    [ ASK_PRINCIPLES + tech + "?",
      ASK_TRADEOFFS + tech + TRADEOFFS_TAIL,
      ASK_ARCHITECTURE + tech + ARCHITECTURE_TAIL ]
  }

  /** Each default question names the technology it is about. */
  lemma DefaultQuestionsNameTech(tech: string)
    ensures forall i :: 0 <= i < 3 ==> Contains(DefaultQuestions(tech)[i], tech)
  {
    ContainsInfix(ASK_PRINCIPLES, tech, "?");
    ContainsInfix(ASK_TRADEOFFS, tech, TRADEOFFS_TAIL);
    ContainsInfix(ASK_ARCHITECTURE, tech, ARCHITECTURE_TAIL);
  }
}
