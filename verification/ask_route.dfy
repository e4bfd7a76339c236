/** The `/perguntar` route: it keeps one conversation per agent id in memory,
    builds the prompt from the agent's training text and that conversation, and
    records the exchange when the answer arrives. The training-text lookup and the
    chat-completion call are inputs (`None` when they fail). */
module AskRoute {
  import opened Common
  import Prompt

  /** `conversasAtivas`: the conversation of each agent id. It is a plain object,
      so an id naming one of `InheritedKeys` finds an inherited member instead of
      a conversation. */
  type Conversations = map<string, seq<Turn>>

  datatype AskOutcome = AskOutcome(convs: Conversations, code: nat, resposta: Option<string>, prompt: Option<seq<Turn>>)

  /** The handler for the fields `pergunta` and `id` of a request body. */
  function Ask(convs: Conversations, pergunta: Value, id: Value,
               contexto: Option<string>, answer: Option<string>): (o: AskOutcome)
    // both fields are required; nothing is created without them
    ensures !Truthy(pergunta) || !Truthy(id) ==> o == AskOutcome(convs, 400, None, None)
    // an inherited member is taken for the conversation; spreading it into the
    // prompt throws, so nothing is stored and no prompt is sent
    ensures Truthy(pergunta) && Truthy(id) && JsString(id) in InheritedKeys ==>
      o == AskOutcome(convs, 500, None, None)
    ensures Truthy(pergunta) && Truthy(id) && JsString(id) !in InheritedKeys ==>
      var key := JsString(id);
      && key in o.convs
      && (forall k :: k != key ==> (k in o.convs <==> k in convs))
      && (forall k :: k in convs && k != key ==> o.convs[k] == convs[k])
      // the prompt is built from the conversation as it stood before this turn
      && (o.prompt.Some? <==> contexto.Some?)
      && (o.prompt.Some? ==> o.prompt.value == Prompt.Messages(JsString(pergunta), contexto.value, TurnsOf(convs, key)))
      // success adds the question and the answer, in that order; failure adds nothing
      && (o.code == 200 <==> contexto.Some? && answer.Some?)
      && (o.code == 200 ==> o.resposta == answer && o.convs[key] == TurnsOf(convs, key) + [Turn(User, JsString(pergunta)), Turn(Assistant, answer.value)])
      && (o.code != 200 ==> o.code == 500 && o.resposta.None? && o.convs[key] == TurnsOf(convs, key))
  {
    if !Truthy(pergunta) || !Truthy(id) then AskOutcome(convs, 400, None, None)
    else
      var key := JsString(id);
      if key in InheritedKeys then AskOutcome(convs, 500, None, None)
      else
        // an array, even an empty one, is truthy: the conversation is created once
        var convs := if key in convs then convs else convs[key := []];
        var historico := convs[key];
        match contexto
        case None => AskOutcome(convs, 500, None, None)
        case Some(c) =>
          var prompt := Prompt.Messages(JsString(pergunta), c, historico);
          match answer
          case None => AskOutcome(convs, 500, None, Some(prompt))
          case Some(r) =>
            var turns := historico + [Turn(User, JsString(pergunta)), Turn(Assistant, r)];
            AskOutcome(convs[key := turns], 200, Some(r), Some(prompt))
  }

  /** The route reads only `pergunta` and `id` from the body. */
  function Field(body: map<string, Value>, k: string): Value {
    if k in body then body[k] else Undef
  }

  function AskBody(convs: Conversations, body: map<string, Value>,
                   contexto: Option<string>, answer: Option<string>): (o: AskOutcome)
    ensures o.code == 400 <==> !Truthy(Field(body, "pergunta")) || !Truthy(Field(body, "id"))
  {
    Ask(convs, Field(body, "pergunta"), Field(body, "id"), contexto, answer)
  }

  /** The conversation is keyed by agent id alone: a caller's own id and the
      history it sends along change nothing. */
  lemma CallerFieldsIgnored(convs: Conversations, body: map<string, Value>, userId: Value, historico: Value,
                            contexto: Option<string>, answer: Option<string>)
    ensures AskBody(convs, body["userId" := userId]["historico" := historico], contexto, answer)
         == AskBody(convs, body, contexto, answer)
  {
    var b := body["userId" := userId]["historico" := historico];
    assert Field(b, "pergunta") == Field(body, "pergunta");
    assert Field(b, "id") == Field(body, "id");
  }

  /** Two answered questions to the same agent: the second prompt carries the
      first exchange, and the conversation has grown by four turns. */
  lemma SecondQuestionSeesFirst(convs: Conversations, q1: string, q2: string, id: Value,
                                c1: string, c2: string, r1: string, r2: string)
    requires q1 != "" && q2 != "" && Truthy(id) && JsString(id) !in InheritedKeys
    ensures var o1 := Ask(convs, Str(q1), id, Some(c1), Some(r1));
      var o2 := Ask(o1.convs, Str(q2), id, Some(c2), Some(r2));
      var key := JsString(id);
      o2.prompt == Some(Prompt.Messages(q2, c2, TurnsOf(convs, key) + [Turn(User, q1), Turn(Assistant, r1)]))
      && |o2.convs[key]| == |TurnsOf(convs, key)| + 4
  {
    JsStringPrimitives(q1, 0);
    JsStringPrimitives(q2, 0);
  }

  /** An agent id such as `constructor` never gets a conversation: every question
      for it fails, however often it is asked. */
  lemma {:induction false} InheritedIdNeverAnswered(convs: Conversations, qs: seq<string>, id: Value, c: string, r: string)
    requires JsString(id) in InheritedKeys
    ensures AskAll(convs, qs, id, c, r) == convs
    decreases |qs|
  {
    if |qs| > 0 {
      InheritedIdNeverAnswered(convs, qs[1..], id, c, r);
    }
  }

  /** Nothing bounds a conversation: every answered question adds two turns. */
  lemma {:induction false} ConversationGrows(convs: Conversations, qs: seq<string>, id: Value, c: string, r: string)
    requires Truthy(id) && JsString(id) !in InheritedKeys && forall i :: 0 <= i < |qs| ==> qs[i] != ""
    ensures |TurnsOf(AskAll(convs, qs, id, c, r), JsString(id))| == |TurnsOf(convs, JsString(id))| + 2 * |qs|
    decreases |qs|
  {
    if |qs| > 0 {
      var o := Ask(convs, Str(qs[0]), id, Some(c), Some(r));
      assert Truthy(Str(qs[0]));
      ConversationGrows(o.convs, qs[1..], id, c, r);
    }
  }

  /** The conversations after asking each question in turn, every call answered. */
  function AskAll(convs: Conversations, qs: seq<string>, id: Value, c: string, r: string): Conversations
    decreases |qs|
  {
    if |qs| == 0 then convs
    else AskAll(Ask(convs, Str(qs[0]), id, Some(c), Some(r)).convs, qs[1..], id, c, r)
  }
}
