/** The keyword heuristic that sizes a task, and its monotonicity in the prompt. */
module Classifier {
  import opened RoutingModel

  const ADVANCED_KEYWORDS: seq<string> := [
    "refactor", "multiple files", "multi-file", "cross-file", "architecture", "migration",
    "integration", "refactoring", "concurrent", "distributed", "refactor."
  ]

  const ADVANCED_STRUCTURAL: seq<string> := [
    "multiple", "several", "across", "files", "modules", "services", "async", "thread",
    "database", "migrate"
  ]

  const ADVANCED_TASK_TYPES: set<string> := {
    "refactor", "refactoring", "migration", "architecture", "integration", "multi-file"
  }

  datatype Classification = Classification(tier: Tier, score: nat)

  predicate OccursAt(text: string, part: string, i: nat) {
    i + |part| <= |text| && text[i..i + |part|] == part
  }

  /** Substring test: `part in text`. */
  predicate Contains(text: string, part: string) {
    exists i: nat :: i <= |text| && OccursAt(text, part, i)
  }

  /** How many of `words` occur in `text`. */
  function Matches(words: seq<string>, text: string): nat {
    if words == [] then 0
    else
      var last := |words| - 1;
      Matches(words[..last], text) + (if Contains(text, words[last]) then 1 else 0)
  }

  function Score(prompt: string, taskType: string): nat {
    2 * Matches(ADVANCED_KEYWORDS, prompt) + Matches(ADVANCED_STRUCTURAL, prompt)
    + (if taskType in ADVANCED_TASK_TYPES then 2 else 0)
  }

  function TierOf(task: Task): Tier {
    if Score(task.prompt, task.taskType) >= 3 then Advanced else Standard
  }

  predicate IsSpace(c: char) {
    c == ' ' || c == '\t' || c == '\n' || c == '\r'
  }

  /** Number of maximal runs of non-space characters. */
  function WordCount(text: string): nat {
    if text == [] then 0
    else
      var last := |text| - 1;
      WordCount(text[..last])
      + (if !IsSpace(text[last]) && (last == 0 || IsSpace(text[last - 1])) then 1 else 0)
  }

  /** Which of `words` occur in `text`. */
  function Found(words: seq<string>, text: string): set<nat> {
    set k: nat | k < |words| && Contains(text, words[k])
  }

  /** What the keywords, the structural words and the task type found weigh together. */
  function Weight(prompt: string, taskType: string): nat {
    2 * |Found(ADVANCED_KEYWORDS, prompt)| + |Found(ADVANCED_STRUCTURAL, prompt)|
    + (if taskType in ADVANCED_TASK_TYPES then 2 else 0)
  }

  lemma {:induction false} MatchesIsFound(words: seq<string>, text: string)
    ensures Matches(words, text) == |Found(words, text)|
  {
    if words == [] {
      assert Found(words, text) == {};
    } else {
      var last := |words| - 1;
      MatchesIsFound(words[..last], text);
      var before := Found(words[..last], text);
      assert last !in before;
      if Contains(text, words[last]) {
        assert Found(words, text) == before + {last};
      } else {
        assert Found(words, text) == before;
      }
    }
  }

  /** A task is advanced exactly when what was found in it weighs at least three, else standard. */
  lemma TierByWeight(task: Task)
    ensures Score(task.prompt, task.taskType) == Weight(task.prompt, task.taskType)
    ensures TierOf(task) == Advanced <==> Weight(task.prompt, task.taskType) >= 3
    ensures TierOf(task) == Standard <==> Weight(task.prompt, task.taskType) <= 2
  {
    MatchesIsFound(ADVANCED_KEYWORDS, task.prompt);
    MatchesIsFound(ADVANCED_STRUCTURAL, task.prompt);
  }

  /** The two scoring loops, the task-type bonus and the three exits. The early exit for short
      prompts never changes the tier or the score. */
  method Classify(task: Task) returns (c: Classification)
    ensures c.score == 2 * |Found(ADVANCED_KEYWORDS, task.prompt)| + |Found(ADVANCED_STRUCTURAL, task.prompt)|
                       + (if task.taskType in ADVANCED_TASK_TYPES then 2 else 0)
    ensures c.tier == Advanced <==> c.score >= 3
    ensures c.tier == Standard <==> c.score < 3
    ensures c.tier == TierOf(task)
  {
    TierByWeight(task);
    var score: nat := 0;
    var signals: seq<string> := [];
    var i := 0;
    while i < |ADVANCED_KEYWORDS|
      invariant 0 <= i <= |ADVANCED_KEYWORDS|
      invariant score == 2 * Matches(ADVANCED_KEYWORDS[..i], task.prompt)
      invariant signals == [] <==> score == 0
    {
      assert ADVANCED_KEYWORDS[..i + 1][..i] == ADVANCED_KEYWORDS[..i];
      if Contains(task.prompt, ADVANCED_KEYWORDS[i]) {
        score := score + 2;
        signals := signals + [ADVANCED_KEYWORDS[i]];
      }
      i := i + 1;
    }
    assert ADVANCED_KEYWORDS[..i] == ADVANCED_KEYWORDS;
    i := 0;
    while i < |ADVANCED_STRUCTURAL|
      invariant 0 <= i <= |ADVANCED_STRUCTURAL|
      invariant score == 2 * Matches(ADVANCED_KEYWORDS, task.prompt) + Matches(ADVANCED_STRUCTURAL[..i], task.prompt)
      invariant signals == [] <==> score == 0
    {
      assert ADVANCED_STRUCTURAL[..i + 1][..i] == ADVANCED_STRUCTURAL[..i];
      if Contains(task.prompt, ADVANCED_STRUCTURAL[i]) {
        score := score + 1;
        signals := signals + [ADVANCED_STRUCTURAL[i]];
      }
      i := i + 1;
    }
    assert ADVANCED_STRUCTURAL[..i] == ADVANCED_STRUCTURAL;
    if task.taskType in ADVANCED_TASK_TYPES {
      score := score + 2;
      signals := signals + [task.taskType];
    }
    if signals == [] && WordCount(task.prompt) <= 20 {
      return Classification(Standard, 0);
    }
    if score >= 3 {
      return Classification(Advanced, score);
    }
    return Classification(Standard, score);
  }

  // ---- monotonicity ----------------------------------------------------------------------

  lemma ContainsTransitive(text: string, middle: string, part: string)
    requires Contains(text, middle) && Contains(middle, part)
    ensures Contains(text, part)
  {
    var i: nat :| i <= |text| && OccursAt(text, middle, i);
    var j: nat :| j <= |middle| && OccursAt(middle, part, j);
    forall k | 0 <= k < |part|
      ensures text[i + j..i + j + |part|][k] == part[k]
    {
      assert middle[j..j + |part|][k] == middle[j + k];
      assert text[i..i + |middle|][j + k] == text[i + j + k];
    }
    assert OccursAt(text, part, i + j);
  }

  lemma {:induction false} MatchesMonotone(words: seq<string>, text: string, more: string)
    requires Contains(more, text)
    ensures Matches(words, text) <= Matches(words, more)
  {
    if words != [] {
      var last := |words| - 1;
      MatchesMonotone(words[..last], text, more);
      if Contains(text, words[last]) {
        ContainsTransitive(more, text, words[last]);
      }
    }
  }

  /** Adding text around a prompt never lowers its score. */
  lemma ScoreMonotone(prompt: string, more: string, taskType: string)
    requires Contains(more, prompt)
    ensures Score(prompt, taskType) <= Score(more, taskType)
  {
    MatchesMonotone(ADVANCED_KEYWORDS, prompt, more);
    MatchesMonotone(ADVANCED_STRUCTURAL, prompt, more);
  }

  lemma {:induction false} MatchesAtLeast(words: seq<string>, text: string, hits: set<nat>)
    requires forall k :: k in hits ==> k < |words| && Contains(text, words[k])
    ensures Matches(words, text) >= |hits|
    decreases |words|
  {
    if words == [] {
      assert forall k :: k !in hits;
      assert hits == {};
    } else {
      var last := |words| - 1;
      var rest := hits - {last};
      MatchesAtLeast(words[..last], text, rest);
      assert hits <= rest + {last};
      if last !in hits {
        assert hits == rest;
      }
    }
  }

  /** Overlapping keywords push these two prompts over the bar on their own: "refactoring" also
      hits "refactor", and "multiple files" also hits both structural words. */
  lemma OverlapForcesAdvanced(task: Task)
    requires Contains(task.prompt, "refactoring") || Contains(task.prompt, "multiple files")
    ensures TierOf(task) == Advanced
  {
    if Contains(task.prompt, "refactoring") {
      assert OccursAt("refactoring", "refactor", 0);
      ContainsTransitive(task.prompt, "refactoring", "refactor");
      MatchesAtLeast(ADVANCED_KEYWORDS, task.prompt, {0, 7});
    } else {
      assert OccursAt("multiple files", "multiple", 0);
      assert OccursAt("multiple files", "files", 9);
      ContainsTransitive(task.prompt, "multiple files", "multiple");
      ContainsTransitive(task.prompt, "multiple files", "files");
      MatchesAtLeast(ADVANCED_KEYWORDS, task.prompt, {1});
      MatchesAtLeast(ADVANCED_STRUCTURAL, task.prompt, {0, 3});
    }
  }
}
