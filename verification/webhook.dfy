/** The WhatsApp Cloud API webhook: the subscription handshake, and the handler
    for notifications, which answers the first message of a notification through
    the agent the receiving phone number belongs to. The configuration lookups,
    the training-text fetch, the answer service and the Graph API post are inputs
    or recorded outputs. */
module Webhook {
  import opened Common
  import Prompt
  import MetaConfig

  const BusinessAccount := "whatsapp_business_account"
  const GraphBase := "https://graph.facebook.com/v22.0/"

  // ---------------------------------------------------------------------------
  // Handshake

  /** `verifyWebhook`: the status and the body sent. `known` is the number of
      configurations with the offered token (`None` when the query throws). */
  function Verify(mode: Value, token: Value, challenge: Value, known: Option<nat>): (r: (nat, Value))
    ensures !Truthy(mode) || !Truthy(token) <==> r.0 == 400
    // the challenge is echoed exactly when the token belongs to a configuration
    ensures r.0 == 200 <==> Truthy(mode) && Truthy(token) && known.Some? && known.value > 0
    ensures r.0 == 200 ==> r.1 == challenge
    ensures r.0 == 403 <==> Truthy(mode) && Truthy(token) && known == Some(0)
    ensures Truthy(mode) && Truthy(token) && known.None? ==> r.0 == 500
  {
    if Truthy(mode) && Truthy(token) then
      match known
      case None => (500, Undef)
      case Some(n) => if n > 0 then (200, challenge) else (403, Undef)
    else (400, Undef)
  }

  /** The handshake passes exactly for a token some stored configuration holds. */
  lemma StoredTokenVerifies(mode: Value, token: Value, challenge: Value, t: seq<MetaConfig.Config>)
    requires Truthy(mode) && Truthy(token)
    ensures Verify(mode, token, challenge, Some(MetaConfig.TokenCount(t, token)))
         == if exists c :: c in t && c.verifyToken == token then (200, challenge) else (403, Undef)
  {
  }

  /** The verify token handed out by a successful configuration passes the
      handshake once its row is stored. */
  lemma CreatedTokenVerifies(agentId: Value, phone: Value, waba: Value, token: Value, uid: Value,
                             random: seq<MetaConfig.Byte>, insertId: Value, createdAt: Value,
                             baseUrl: Option<string>, host: Option<string>, t: seq<MetaConfig.Config>,
                             mode: Value, challenge: Value)
    requires MetaConfig.Create(agentId, phone, waba, token, uid, Some(0), random, MetaConfig.Done(1, insertId), baseUrl, host).code == 200
    requires Truthy(mode) && |random| > 0
    ensures var r := MetaConfig.Create(agentId, phone, waba, token, uid, Some(0), random, MetaConfig.Done(1, insertId), baseUrl, host);
      var offered := Str(r.created.value.verifyToken);
      var stored := t + [MetaConfig.Inserted(r.write.value, insertId, createdAt)];
      Verify(mode, offered, challenge, Some(MetaConfig.TokenCount(stored, offered))) == (200, challenge)
  {
    var r := MetaConfig.Create(agentId, phone, waba, token, uid, Some(0), random, MetaConfig.Done(1, insertId), baseUrl, host);
    var row := MetaConfig.Inserted(r.write.value, insertId, createdAt);
    assert row in t + [row];
  }

  // ---------------------------------------------------------------------------
  // Reading a notification

  /** A property read on a value that may already have thrown; `None` is a thrown
      TypeError. */
  function Get(v: Option<Value>, k: string): (r: Option<Value>)
    ensures v.None? ==> r.None?
    ensures v.Some? ==> r == Prop(v.value, k)
  {
    if v.None? then None else Prop(v.value, k)
  }

  /** `body.entry[0].changes[0]`. */
  function Change(body: Value): Option<Value> {
    Get(Get(Get(Get(Some(body), "entry"), "0"), "changes"), "0")
  }

  /** `<change>.value.messages[0]`: the one message the handler reads. */
  function FirstMessage(body: Value): Option<Value> {
    Get(Get(Get(Change(body), "value"), "messages"), "0")
  }

  /** `<change>.value.metadata.phone_number_id`: the number written to. */
  function PhoneOf(body: Value): Option<Value> {
    Get(Get(Get(Change(body), "value"), "metadata"), "phone_number_id")
  }

  /** What the handler reads of a notification. */
  datatype Inbound = Inbound(phoneNumberId: Value, from: Value, kind: Value, text: Value)

  /** The guard `body.entry && body.entry[0].changes && body.entry[0].changes[0] &&
      ....value.messages && ....value.messages[0]` and the reads after it.
      `None` when a link is falsy or a read throws (the handler's catch). */
  function Extract(body: Value): (r: Option<Inbound>)
    // only the first message of the first change of the first entry is read
    ensures r.Some? ==>
      && FirstMessage(body).Some? && Truthy(FirstMessage(body).value)
      && PhoneOf(body).Some? && r.value.phoneNumberId == PhoneOf(body).value
      && r.value.from == Prop(FirstMessage(body).value, "from").value
      && r.value.kind == Prop(FirstMessage(body).value, "type").value
  {
    var entry := Get(Some(body), "entry");
    if entry.None? || !Truthy(entry.value) then None
    else
      var changes := Get(Get(entry, "0"), "changes");
      if changes.None? || !Truthy(changes.value) then None
      else
        var change := Get(changes, "0");
        if change.None? || !Truthy(change.value) then None
        else
          var value := Get(change, "value");
          var messages := Get(value, "messages");
          if messages.None? || !Truthy(messages.value) then None
          else
            ReadMessage(Get(Get(value, "metadata"), "phone_number_id"), Get(messages, "0").value)
  }

  /** The last link of the guard, `messages[0]`, and the reads after it: the
      phone number id (which throws when `metadata` is missing), the sender, the
      type, and `message.text ? message.text.body : null`. */
  function ReadMessage(phone: Option<Value>, message: Value): (r: Option<Inbound>)
    ensures r.Some? <==> Truthy(message) && phone.Some?
    ensures r.Some? ==> r.value.phoneNumberId == phone.value && r.value.from == Prop(message, "from").value
  {
    if !Truthy(message) || phone.None? then None
    else
      var text := Prop(message, "text").value;
      var textBody := if Truthy(text) then Prop(text, "body").value else Null;
      Some(Inbound(phone.value, Prop(message, "from").value, Prop(message, "type").value, textBody))
  }

  // ---------------------------------------------------------------------------
  // Handling a notification

  /** The configuration row of a phone number id. */
  datatype MetaRow = MetaRow(agentId: Value, accessToken: Value)

  /** The Graph API call that sends the answer. */
  datatype Post = Post(url: string, to: Value, text: string, authorization: string)

  /** What the handler did: the status sent (`None` when it throws before
      responding), the phone number id it looked up, the prompt it sent to the
      answer service and the post it made. */
  datatype Handled = Handled(code: Option<nat>, query: Option<Value>, prompt: Option<seq<Turn>>, post: Option<Post>)

  /** `handleWebhook`. `found` is the configuration of the receiving number
      (`Some(None)` for none, `None` when the query throws); `contexto` the agent's
      training text and `answer` the answer service's reply (`None` on failure). */
  function Handle(body: Value, found: Option<Option<MetaRow>>, contexto: Option<string>, answer: Option<string>)
    : (h: Handled)
    ensures Nullish(body) ==> h == Handled(None, None, None, None)
    ensures !Nullish(body) && Prop(body, "object").value != Str(BusinessAccount) ==> h == Handled(Some(404), None, None, None)
    // a business-account notification is acknowledged first, whatever follows
    ensures !Nullish(body) && Prop(body, "object").value == Str(BusinessAccount) ==> h.code == Some(200)
    ensures h.query.Some? <==> h.code == Some(200) && Extract(body).Some?
    ensures h.query.Some? ==> h.query.value == Extract(body).value.phoneNumberId
    // only a text message for a configured number reaches the answer service, with no history
    ensures h.prompt.Some? <==>
      && h.query.Some? && found.Some? && found.value.Some?
      && Extract(body).value.kind == Str("text") && contexto.Some?
    ensures h.prompt.Some? ==> h.prompt.value == Prompt.Messages(JsString(Extract(body).value.text), contexto.value, [])
    ensures h.post.Some? <==> h.prompt.Some? && answer.Some?
    ensures h.post.Some? ==>
      var m := Extract(body).value;
      h.post.value == Post(GraphBase + JsString(m.phoneNumberId) + "/messages", m.from, answer.value,
                           "Bearer " + JsString(found.value.value.accessToken))
  {
    if Nullish(body) then Handled(None, None, None, None)
    else if Prop(body, "object").value != Str(BusinessAccount) then Handled(Some(404), None, None, None)
    else match Extract(body)
      case None => Handled(Some(200), None, None, None)
      case Some(m) =>
        match found
        case None => Handled(Some(200), Some(m.phoneNumberId), None, None)
        case Some(None) => Handled(Some(200), Some(m.phoneNumberId), None, None)
        case Some(Some(row)) =>
          if m.kind != Str("text") then Handled(Some(200), Some(m.phoneNumberId), None, None)
          else match contexto
            case None => Handled(Some(200), Some(m.phoneNumberId), None, None)
            case Some(c) =>
              var prompt := Prompt.Messages(JsString(m.text), c, []);
              match answer
              case None => Handled(Some(200), Some(m.phoneNumberId), Some(prompt), None)
              case Some(a) =>
                var post := Post(GraphBase + JsString(m.phoneNumberId) + "/messages", m.from, a,
                                 "Bearer " + JsString(row.accessToken));
                Handled(Some(200), Some(m.phoneNumberId), Some(prompt), Some(post))
  }

  // ---------------------------------------------------------------------------
  // Properties, on notifications of the shape the Cloud API sends

  /** A notification for `phoneId` carrying `messages`. */
  function Envelope(phoneId: Value, messages: seq<Value>): Value {
    Obj(map["object" := Str(BusinessAccount),
            "entry" := Arr([Obj(map["changes" := Arr([Obj(map["value" := Obj(map[
              "metadata" := Obj(map["phone_number_id" := phoneId]),
              "messages" := Arr(messages)])])])])])])
  }

  function TextMessage(from: string, text: string): Value {
    Obj(map["from" := Str(from), "type" := Str("text"), "text" := Obj(map["body" := Str(text)])])
  }

  /** What the handler reads of such a notification: its number and its first
      message, if any. */
  lemma EnvelopeReads(phoneId: Value, messages: seq<Value>)
    ensures PhoneOf(Envelope(phoneId, messages)) == Some(phoneId)
    ensures FirstMessage(Envelope(phoneId, messages)) == Some(if |messages| > 0 then messages[0] else Undef)
    ensures Extract(Envelope(phoneId, messages)) == if |messages| > 0 then ReadMessage(Some(phoneId), messages[0]) else None
  {
    var value := Obj(map["metadata" := Obj(map["phone_number_id" := phoneId]), "messages" := Arr(messages)]);
    var change := Obj(map["value" := value]);
    var entry := Obj(map["changes" := Arr([change])]);
    var body := Envelope(phoneId, messages);
    assert Get(Some(body), "entry") == Some(Arr([entry]));
    assert Get(Some(Arr([entry])), "0") == Some(entry);
    assert Change(body) == Some(change);
    assert Get(Change(body), "value") == Some(value);
  }

  /** Only the first message of a notification is handled; the rest are
      dropped. */
  lemma OnlyFirstMessage(phoneId: Value, m: Value, rest: seq<Value>,
                         found: Option<Option<MetaRow>>, contexto: Option<string>, answer: Option<string>)
    ensures Handle(Envelope(phoneId, [m] + rest), found, contexto, answer)
         == Handle(Envelope(phoneId, [m]), found, contexto, answer)
  {
    EnvelopeReads(phoneId, [m] + rest);
    EnvelopeReads(phoneId, [m]);
  }

  /** A text message to a configured number is answered to its sender, through
      the number it was sent to, with a prompt built from its text alone. */
  lemma TextMessageAnswered(phoneId: string, from: string, text: string, row: MetaRow, c: string, a: string)
    ensures Handle(Envelope(Str(phoneId), [TextMessage(from, text)]), Some(Some(row)), Some(c), Some(a))
         == Handled(Some(200), Some(Str(phoneId)), Some(Prompt.Messages(text, c, [])),
                    Some(Post(GraphBase + phoneId + "/messages", Str(from), a, "Bearer " + JsString(row.accessToken))))
  {
    EnvelopeReads(Str(phoneId), [TextMessage(from, text)]);
    TextMessageReads(Str(phoneId), from, text);
    JsStringPrimitives(phoneId, 0);
    JsStringPrimitives(text, 0);
  }

  /** The fields the handler reads of a text message. */
  lemma TextMessageReads(phone: Value, from: string, text: string)
    ensures ReadMessage(Some(phone), TextMessage(from, text)) == Some(Inbound(phone, Str(from), Str("text"), Str(text)))
  {
    var m := TextMessage(from, text);
    assert Prop(m, "text") == Some(Obj(map["body" := Str(text)]));
    assert Prop(m, "from") == Some(Str(from));
    assert Prop(m, "type") == Some(Str("text"));
  }

  /** A message of another type is acknowledged and otherwise ignored. */
  lemma OtherTypesIgnored(phoneId: Value, from: string, kind: string, row: MetaRow, c: string, a: string)
    requires kind != "text"
    ensures var m := Obj(map["from" := Str(from), "type" := Str(kind)]);
      Handle(Envelope(phoneId, [m]), Some(Some(row)), Some(c), Some(a)) == Handled(Some(200), Some(phoneId), None, None)
  {
    EnvelopeReads(phoneId, [Obj(map["from" := Str(from), "type" := Str(kind)])]);
  }

  /** A number with no configuration gets no answer. */
  lemma UnknownNumberIgnored(phoneId: Value, from: string, text: string, c: string, a: string)
    ensures Handle(Envelope(phoneId, [TextMessage(from, text)]), Some(None), Some(c), Some(a))
         == Handled(Some(200), Some(phoneId), None, None)
  {
    EnvelopeReads(phoneId, [TextMessage(from, text)]);
  }

  /** A notification without messages (a delivery status, say) is acknowledged
      and nothing is looked up. */
  lemma EmptyNotificationIgnored(phoneId: Value, found: Option<Option<MetaRow>>, c: Option<string>, a: Option<string>)
    ensures Handle(Envelope(phoneId, []), found, c, a) == Handled(Some(200), None, None, None)
  {
    EnvelopeReads(phoneId, []);
  }
}
