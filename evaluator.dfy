/** Post-processing of the LLM's candidate evaluation (`evaluate_candidate_with_llm`
    in job_wise.py, multiple_users.py and full_automation.py) and the rubric
    lookup `get_job_prompt`. The chat call and `json.loads` are parameters. */
module Evaluator {
  import opened Text

  datatype Evaluation = Evaluation(
    overallScore: int,
    recommendation: string,
    strengths: seq<string>,
    concerns: seq<string>,
    skillsMatch: int,
    experienceMatch: int,
    summary: string)

  /** What the chat completion call gave back: the reply text, or the
      message of the exception raised inside the `try`. */
  datatype LlmReply = Replied(content: string) | CallFailed(message: string)

  /** The record used when the reply is not valid JSON. */
  const ParseFailureRecord := Evaluation(
    50, "REVIEW_NEEDED", ["Unable to parse evaluation"], ["LLM response parsing failed"],
    50, 50, "Evaluation failed - manual review required")

  /** The record used when the call itself raised. */
  function ApiErrorRecord(message: string): Evaluation
  {
    Evaluation(0, "ERROR", [], ["API Error: " + message], 0, 0, "Error occurred during evaluation")
  }

  const Fence := "```"
  const JsonFence := "```json"

  // ---------------------------------------------------------------------
  // Fence cleanup

  /** Removes the markdown code fences around the reply (already stripped). */
  function CleanFences(content: string): string
  {
    if StartsWith(content, JsonFence) then Strip(RemoveAll(RemoveAll(content, JsonFence), Fence))
    else if StartsWith(content, Fence) then Strip(RemoveAll(content, Fence))
    else content
  }

  /** No three backticks in a row. */
  predicate NoFence(s: string)
  {
    forall i :: 0 <= i < |s| - 2 ==> !(s[i] == '`' && s[i + 1] == '`' && s[i + 2] == '`')
  }

  function LeadingTicks(s: string): nat
  {
    LeadingCount(s, {'`'})
  }

  /** Removing "```" from `t` leaves its leading run of backticks modulo 3
      and no three in a row anywhere. */
  predicate FenceRemovalLeaves(t: string)
  {
    && LeadingTicks(RemoveAll(t, Fence)) == LeadingTicks(t) % 3
    && NoFence(RemoveAll(t, Fence))
  }

  /** Removing "```" reduces the leading run of backticks modulo 3 and
      leaves no three in a row anywhere. */
  lemma {:induction false} RemoveFenceLeaves(t: string)
    ensures LeadingTicks(RemoveAll(t, Fence)) == LeadingTicks(t) % 3
    ensures NoFence(RemoveAll(t, Fence))
    decreases |t|
  {
    if |t| < 3 {
      assert RemoveAll(t, Fence) == t;
      assert LeadingTicks(t) <= 2;
    } else if t[..3] == Fence {
      RemoveFenceLeaves(t[3..]);
      RemoveFenceAtFence(t);
    } else {
      RemoveFenceLeaves(t[1..]);
      RemoveFenceAtChar(t);
    }
  }

  /** The step of `RemoveFenceLeaves` where `t` opens with a fence. */
  lemma RemoveFenceAtFence(t: string)
    requires |t| >= 3 && t[..3] == Fence
    requires FenceRemovalLeaves(t[3..])
    ensures FenceRemovalLeaves(t)
  {
    LeadingCountDrop(t, 3, {'`'});
    assert RemoveAll(t, Fence) == RemoveAll(t[3..], Fence);
    ModThree(LeadingTicks(t[3..]));
  }

  /** The step of `RemoveFenceLeaves` where `t` keeps its first character. */
  lemma RemoveFenceAtChar(t: string)
    requires |t| >= 3 && t[..3] != Fence
    requires FenceRemovalLeaves(t[1..])
    ensures FenceRemovalLeaves(t)
  {
    var rest := RemoveAll(t[1..], Fence);
    assert RemoveAll(t, Fence) == [t[0]] + rest;
    if t[0] == '`' {
      LeadingCountDrop(t, 1, {'`'});
      assert t[..3] == [t[0], t[1], t[2]];
      assert t[1] != '`' || t[2] != '`';
      assert LeadingTicks(t[1..]) <= 1;
      assert LeadingTicks(rest) == LeadingTicks(t[1..]);
    } else {
      assert LeadingTicks(t) == 0;
    }
    ConsNoFence(t[0], rest);
  }

  lemma ModThree(x: nat)
    ensures (x + 3) % 3 == x % 3
  {
  }

  /** Putting one character in front of a fence-free string keeps it
      fence-free when a backtick meets at most one more. */
  lemma ConsNoFence(c: char, rest: string)
    requires NoFence(rest)
    requires c == '`' ==> LeadingTicks(rest) <= 1
    ensures NoFence([c] + rest)
    ensures LeadingTicks([c] + rest) == (if c == '`' then 1 + LeadingTicks(rest) else 0)
  {
    var r := [c] + rest;
    assert r[1..] == rest;
    forall i | 0 <= i < |r| - 2
      ensures !(r[i] == '`' && r[i + 1] == '`' && r[i + 2] == '`')
    {
      if i == 0 {
        if c == '`' && rest[0] == '`' && rest[1] == '`' {
          LeadingTwo(rest, {'`'});
        }
      } else {
        assert r[i] == rest[i - 1] && r[i + 1] == rest[i] && r[i + 2] == rest[i + 1];
      }
    }
  }

  lemma LeadingCountDrop(s: string, n: nat, cs: set<char>)
    requires n <= |s| && forall i :: 0 <= i < n ==> s[i] in cs
    ensures LeadingCount(s, cs) == n + LeadingCount(s[n..], cs)
    decreases n
  {
    if n > 0 {
      LeadingCountDrop(s[1..], n - 1, cs);
      assert s[1..][n - 1..] == s[n..];
    }
  }

  lemma LeadingTwo(s: string, cs: set<char>)
    requires |s| >= 2 && s[0] in cs && s[1] in cs
    ensures LeadingCount(s, cs) >= 2
  {
    LeadingCountDrop(s, 2, cs);
  }

  /** A substring of a fence-free string is fence-free. */
  lemma NoFenceSubstring(s: string, r: string)
    requires NoFence(s) && Contains(s, r)
    ensures NoFence(r)
  {
    var k: nat :| k <= |s| && OccursAt(s, r, k);
    forall i | 0 <= i < |r| - 2
      ensures !(r[i] == '`' && r[i + 1] == '`' && r[i + 2] == '`')
    {
      assert r[i] == s[k + i] && r[i + 1] == s[k + i + 1] && r[i + 2] == s[k + i + 2];
    }
  }

  /** A fenced reply comes out with no fence left in it; any other reply is
      passed through untouched. */
  lemma CleanFencesRemovesFences(content: string)
    ensures StartsWith(content, Fence) ==> NoFence(CleanFences(content))
    ensures !StartsWith(content, Fence) ==> CleanFences(content) == content
  {
    if StartsWith(content, JsonFence) {
      assert content[..3] == content[..7][..3];
      var once := RemoveAll(content, JsonFence);
      RemoveFenceLeaves(once);
      NoFenceSubstring(RemoveAll(once, Fence), CleanFences(content));
    } else if StartsWith(content, Fence) {
      RemoveFenceLeaves(content);
      NoFenceSubstring(RemoveAll(content, Fence), CleanFences(content));
    }
  }

  // ---------------------------------------------------------------------
  // The evaluation

  /** `evaluate_candidate_with_llm`: the reply is stripped, unfenced and
      handed to `parse` (`json.loads`, `None` standing for JSONDecodeError). */
  function Evaluate(reply: LlmReply, parse: string -> Option<Evaluation>): (r: Evaluation)
    ensures reply.CallFailed? ==>
              && r.overallScore == 0 && r.recommendation == "ERROR"
              && r.strengths == [] && r.concerns == ["API Error: " + reply.message]
    ensures reply.Replied? && parse(CleanFences(Strip(reply.content))).None? ==> r == ParseFailureRecord
    ensures reply.Replied? && parse(CleanFences(Strip(reply.content))).Some? ==>
              r == parse(CleanFences(Strip(reply.content))).value
  {
    match reply
    case CallFailed(message) => ApiErrorRecord(message)
    case Replied(content) =>
      match parse(CleanFences(Strip(content)))
      case None => ParseFailureRecord
      case Some(e) => e
  }

  // ---------------------------------------------------------------------
  // get_job_prompt

  const GeneralPrompt := "You are an expert recruiter. Evaluate this candidate for the given job position."

  /** A rubric entry of job_promts.json; a `null` prompt reads as `None`. */
  datatype Rubric = Rubric(jobName: string, prompt: Option<string>)

  predicate TitleMatches(title: string, r: Rubric) { Contains(Lower(r.jobName), Lower(title)) }

  /** No rubric name contains the title. */
  predicate NoRubricMatches(rubrics: seq<Rubric>, title: string)
  {
    forall i :: 0 <= i < |rubrics| ==> !TitleMatches(title, rubrics[i])
  }

  /** `rubrics[i]` is the first rubric whose name contains the title. */
  predicate IsFirstRubric(rubrics: seq<Rubric>, title: string, i: int)
  {
    0 <= i < |rubrics| && TitleMatches(title, rubrics[i])
    && forall j :: 0 <= j < i ==> !TitleMatches(title, rubrics[j])
  }

  /** `get_job_prompt(job_title)`: the prompt of the first entry, in file
      order, whose name contains the title case-insensitively; otherwise the
      general prompt. */
  function GetJobPrompt(rubrics: seq<Rubric>, title: string): (r: Option<string>)
    ensures NoRubricMatches(rubrics, title) ==> r == Some(GeneralPrompt)
    ensures forall i :: IsFirstRubric(rubrics, title, i) ==> r == rubrics[i].prompt
  {
    if rubrics == [] then Some(GeneralPrompt)
    else if TitleMatches(title, rubrics[0]) then
      assert forall i :: IsFirstRubric(rubrics, title, i) ==> i == 0 by {
        forall i | IsFirstRubric(rubrics, title, i) ensures i == 0 {
          assert !(0 < i);
        }
      }
      rubrics[0].prompt
    else
      var r := GetJobPrompt(rubrics[1..], title);
      assert NoRubricMatches(rubrics, title) ==> NoRubricMatches(rubrics[1..], title) by {
        assert forall k :: 1 <= k < |rubrics| ==> rubrics[k] == rubrics[1..][k - 1];
      }
      assert forall i :: IsFirstRubric(rubrics, title, i) ==> IsFirstRubric(rubrics[1..], title, i - 1) by {
        forall i | IsFirstRubric(rubrics, title, i) ensures IsFirstRubric(rubrics[1..], title, i - 1) {
          assert i != 0;
          forall j | 0 <= j < i - 1 ensures !TitleMatches(title, rubrics[1..][j]) {
            assert rubrics[1..][j] == rubrics[j + 1];
          }
        }
      }
      r
  }

  /** The `ValueError` for a missing prompt needs a rubric whose prompt is
      `null`: with every prompt present the lookup always yields text. */
  lemma GetJobPromptNeverNone(rubrics: seq<Rubric>, title: string)
    requires forall i :: 0 <= i < |rubrics| ==> rubrics[i].prompt.Some?
    ensures GetJobPrompt(rubrics, title).Some?
  {
    if rubrics != [] && !TitleMatches(title, rubrics[0]) {
      GetJobPromptNeverNone(rubrics[1..], title);
    }
  }

  /** An empty title matches every name, so the first rubric is chosen. */
  lemma EmptyTitlePicksFirst(rubrics: seq<Rubric>)
    requires rubrics != []
    ensures GetJobPrompt(rubrics, "") == rubrics[0].prompt
  {
    assert OccursAt(Lower(rubrics[0].jobName), Lower(""), 0);
  }
}
