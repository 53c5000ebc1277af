/** The two chat messages sent to the language model (qa_app.py, ask_openai). */
module Prompt {
  import opened Strings

  /** The sentence the model is told to give when the messages do not hold the answer. */
  const FALLBACK_SENTENCE: string := "I don't have enough information to answer that question."

  const SYSTEM_INSTRUCTION: string :=
    "You answer questions about member data based ONLY on the provided messages. "
    + "If the answer is not in the messages, reply: " + FALLBACK_SENTENCE

  const CONTEXT_LABEL: string := "Context:\n"
  const QUESTION_LABEL: string := "\n\nQuestion: "
  const ANSWER_REQUEST: string := "\nProvide a concise answer."

  /** The system instruction ends with the exact fallback sentence. */
  lemma SystemInstructionEndsWithFallback()
    ensures IsSuffix(FALLBACK_SENTENCE, SYSTEM_INSTRUCTION)
  {
  }

  /** Where the question starts in the user message built from a context of length `contextLength`. */
  function QuestionOffset(contextLength: nat): nat {
    |CONTEXT_LABEL| + contextLength + |QUESTION_LABEL|
  }

  /** The user message: the context and the question, each verbatim, between fixed labels. */
  function UserMessage(context: string, question: string): (m: string)
    ensures |m| == QuestionOffset(|context|) + |question| + |ANSWER_REQUEST|
    ensures IsPrefix(CONTEXT_LABEL, m)
    ensures OccursAt(context, m, |CONTEXT_LABEL|)
    ensures OccursAt(QUESTION_LABEL, m, |CONTEXT_LABEL| + |context|)
    ensures OccursAt(question, m, QuestionOffset(|context|))
    ensures IsSuffix(ANSWER_REQUEST, m)
  {
    var m := CONTEXT_LABEL + context + QUESTION_LABEL + question + ANSWER_REQUEST;
    assert m[..|CONTEXT_LABEL|] == CONTEXT_LABEL;
    assert m[|CONTEXT_LABEL|..|CONTEXT_LABEL| + |context|] == context;
    assert m[|CONTEXT_LABEL| + |context|..QuestionOffset(|context|)] == QUESTION_LABEL;
    assert m[QuestionOffset(|context|)..QuestionOffset(|context|) + |question|] == question;
    assert m[|m| - |ANSWER_REQUEST|..] == ANSWER_REQUEST;
    m
  }

  /** Knowing the context's length, the user message determines the context and the question. */
  lemma UserMessageDeterminesParts(c1: string, q1: string, c2: string, q2: string)
    requires |c1| == |c2|
    requires UserMessage(c1, q1) == UserMessage(c2, q2)
    ensures c1 == c2 && q1 == q2
  {
    var m := UserMessage(c1, q1);
    assert c1 == m[|CONTEXT_LABEL|..|CONTEXT_LABEL| + |c1|] == c2;
    assert q1 == m[QuestionOffset(|c1|)..QuestionOffset(|c1|) + |q1|] == q2;
  }

  /**
   * Without the length the message is ambiguous: a context that itself holds the question label
   * gives the same message as a shorter context with a longer question.
   */
  lemma UserMessageAmbiguous(a: string, b: string, c: string)
    ensures UserMessage(a + QUESTION_LABEL + b, c) == UserMessage(a, b + QUESTION_LABEL + c)
  {
    Regroup(CONTEXT_LABEL, a, QUESTION_LABEL, b, c, ANSWER_REQUEST);
  }
}
