/** The message list `perguntarIA` sends to the chat-completion service: the fixed
    system instruction, the conversation so far, and one user message that embeds
    the agent's training text and the question. The HTTP call is left out. */
module Prompt {
  import opened Common

  const Instruction := "Voc\U{00EA} \U{00E9} um assistente \U{00FA}til que responde apenas com base nas informa\U{00E7}\U{00F5}es fornecidas. Responda sempre em portugu\U{00EA}s. Baseie suas respostas SOMENTE no contexto fornecido. Se a resposta n\U{00E3}o estiver no contexto, diga que n\U{00E3}o sabe a informa\U{00E7}\U{00E3}o."

  const ContextHeader := "CONTEXTO PARA SUA RESPOSTA:\n---\n"
  const QuestionHeader := "\n---\n\nPERGUNTA DO USU\U{00C1}RIO:\n"

  /** The user message's text: the context block, then the question. */
  function Question(pergunta: string, contexto: string): (q: string)
    ensures Includes(q, contexto) && Includes(q, pergunta)
    ensures EndsWith(q, pergunta)
  {
    var q := ContextHeader + contexto + QuestionHeader + pergunta;
    IncludesInfix(ContextHeader, contexto, QuestionHeader + pergunta);
    assert q == ContextHeader + contexto + (QuestionHeader + pergunta);
    IncludesInfix(ContextHeader + contexto + QuestionHeader, pergunta, "");
    assert q + "" == q;
    q
  }

  /** `perguntarIA`'s `messages`. */
  function Messages(pergunta: string, contexto: string, historico: seq<Turn>): (ms: seq<Turn>)
    ensures |ms| == |historico| + 2
    ensures ms[0] == Turn(System, Instruction)
    ensures ms[1..|ms| - 1] == historico
    ensures ms[|ms| - 1].role == User
    ensures Includes(ms[|ms| - 1].content, contexto) && Includes(ms[|ms| - 1].content, pergunta)
  {
    [Turn(System, Instruction)] + historico + [Turn(User, Question(pergunta, contexto))]
  }

  /** Both inputs can be read back from the user message at fixed places: the
      context right after the context header, the question at the end. */
  lemma QuestionRecoverable(pergunta: string, contexto: string)
    ensures var q := Question(pergunta, contexto);
      q[|q| - |pergunta|..] == pergunta
      && q[..|ContextHeader|] == ContextHeader
      && q[|ContextHeader|..|ContextHeader| + |contexto|] == contexto
  {
    var q := Question(pergunta, contexto);
    assert q == ContextHeader + contexto + QuestionHeader + pergunta;
  }

  /** With the default empty history the list has exactly the instruction and the
      question. */
  lemma EmptyHistoryTwoMessages(pergunta: string, contexto: string)
    ensures Messages(pergunta, contexto, []) == [Turn(System, Instruction), Turn(User, Question(pergunta, contexto))]
  {
  }

  /** Appending turns to the history only inserts them before the question. */
  lemma {:induction false} MessagesExtend(pergunta: string, contexto: string, h: seq<Turn>, more: seq<Turn>)
    ensures var a := Messages(pergunta, contexto, h);
      Messages(pergunta, contexto, h + more) == a[..|a| - 1] + more + [a[|a| - 1]]
  {
    var a := Messages(pergunta, contexto, h);
    assert a[..|a| - 1] == [Turn(System, Instruction)] + h;
  }
}
