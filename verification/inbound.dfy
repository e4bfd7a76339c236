/** The handler every agent runs for each upserted message: echo suppression for
    the relay's own replies, owner takeover, the `###` block and `##ativar` unblock
    commands, hand-off to a human, silencing of blocked numbers, and forwarding to
    the answer service with a bounded per-sender history. External answers (the
    owner phone, whether the database answers, the answer service's reply, the id
    the transport gives the one message the handler sends) are inputs. */
module Inbound {
  import opened Common
  import BlockLedger
  import HumanRequest

  const EchoWindowMs := 10000
  const MaxHistory := 10
  const HistoryMaxAgeMs := 2 * 60 * 60 * 1000
  const DefaultBlock := "24hr"

  const TakeoverBy := "owner_takeover"
  const SystemBy := "system"
  const UnblockWord := "##ativar"

  // The fixed replies, in the source's wording; each is split into pieces only to
  // keep the proofs that mention them small.
  const NoOwnerText := "N\U{00E3}o foi poss\U{00ED}vel " + "processar o comando. " + "Configure o n\U{00FA}mero " + "do dono da conta."
  const UnknownCommandText := "Comando n\U{00E3}o " + "reconhecido."
  const HandoffText := "Entendido! " + "Estou encerrando " + "o atendimento autom\U{00E1}tico.\n\n" + "Voc\U{00EA} ser\U{00E1} transferido(a) " + "para o atendente " + "em breve."
  const HandoffFallbackText := "Vou transferir voc\U{00EA} " + "para um atendente. " + "Aguarde um momento, " + "por favor."
  const NoAnswerText := "N\U{00E3}o consegui " + "gerar uma resposta " + "no momento."
  const ServiceDownText := "N\U{00E3}o consegui " + "falar com o servidor " + "da IA agora."

  // ---------------------------------------------------------------------------
  // Data

  /** The parts of an upserted message the handler reads. `hasContent` is whether
      `message.message` is present; the two text fields are empty when absent. */
  datatype Message = Message(hasContent: bool, from: string, fromMe: bool, id: string,
                             conversation: string, extendedText: string)

  /** Process-wide state the handler reads and writes: the echo markers (sent
      message id to send time), the per-sender histories and their last-use times,
      and the block ledger. */
  datatype State = State(markers: map<string, int>, histories: map<string, seq<Turn>>,
                         stamps: map<string, int>, ledger: BlockLedger.Table)

  datatype Answer = Answered(resposta: string) | AnswerFailed

  /** Everything outside the state that one run of the handler consults. */
  datatype Env = Env(now: int, owner: Option<string>, db: BlockLedger.Db, answer: Answer,
                     sentId: Option<string>, sentAt: int)

  /** The body posted to the answer service. */
  datatype Request = Request(pergunta: string, agent: string, userId: string, historico: seq<Turn>)

  /** Which branch of the handler ran. */
  datatype Decision =
    | NoContent | Echo | OwnerTakeover | OwnerMessage | NoText
    | BlockCommand | UnblockCommand | Handoff | Silenced | Forwarded

  /** The handler's effect: new state, branch taken, the text sent back to the
      sender if any, and the request made to the answer service if any. */
  datatype Outcome = Outcome(state: State, decision: Decision, reply: Option<string>, request: Option<Request>)

  // ---------------------------------------------------------------------------
  // Echo markers

  /** Drop the markers older than the echo window. */
  function PurgeMarkers(ms: map<string, int>, now: int): (r: map<string, int>)
    ensures forall k :: k in r <==> k in ms && now - ms[k] <= EchoWindowMs
    ensures forall k :: k in r ==> r[k] == ms[k]
  {
    map k | k in ms && now - ms[k] <= EchoWindowMs :: ms[k]
  }

  /** `safeSendMessage` remembers the id of what it sent, when the transport gave
      one. */
  function Mark(ms: map<string, int>, sentId: Option<string>, at: int): (r: map<string, int>)
    ensures sentId.Some? && sentId.value != "" ==> r == ms[sentId.value := at]
    ensures sentId.None? || sentId.value == "" ==> r == ms
  {
    if sentId.Some? && sentId.value != "" then ms[sentId.value := at] else ms
  }

  /** Reply to the sender, remembering the reply's id as an echo marker. */
  function Send(s: State, text: string, e: Env): (o: Outcome)
    ensures o.reply == Some(text) && o.request.None?
    ensures o.state == s.(markers := o.state.markers)
    ensures forall k :: k in o.state.markers <==> k in s.markers || (e.sentId == Some(k) && k != "")
  {
    Outcome(s.(markers := Mark(s.markers, e.sentId, e.sentAt)), Forwarded, Some(text), None)
  }

  // ---------------------------------------------------------------------------
  // Owner matching

  /** Two numbers are the same when the digits of one contain the digits of the
      other. */
  predicate SameNumber(a: string, b: string) {
    var x := Digits(a);
    var y := Digits(b);
    Includes(x, y) || Includes(y, x)
  }

  lemma SameNumberSymmetric(a: string, b: string)
    ensures SameNumber(a, b) <==> SameNumber(b, a)
  {
  }

  lemma SameNumberReflexive(a: string)
    ensures SameNumber(a, a)
  {
    IncludesReflexive(Digits(a));
  }

  /** A number without digits matches every sender: its digits are empty, and the
      empty string is part of every string. */
  lemma DigitlessNumberMatchesAll(owner: string, from: string)
    requires Digits(owner) == ""
    ensures SameNumber(from, owner)
  {
    IncludesReflexive(Digits(from));
  }

  /** `getOwnerPhone` answers null for a missing or empty number. */
  predicate HasOwner(owner: Option<string>) {
    owner.Some? && owner.value != ""
  }

  /** The owner writing in a chat silences the relay there, unless the chat is a
      group, the status broadcast or the owner's own number. */
  predicate TakeoverApplies(owner: Option<string>, from: string) {
    && HasOwner(owner)
    && !EndsWith(from, "@g.us")
    && from != "status@broadcast"
    && !SameNumber(from, owner.value)
  }

  // ---------------------------------------------------------------------------
  // The `###` command

  /** The grammar of the argument after `###`: digits and an optional unit,
      matched case-insensitively. */
  predicate CommandArgSyntax(arg: string) {
    var n := BlockLedger.DigitPrefix(arg);
    n > 0 && (n == |arg| || BlockLedger.IsUnitName(ToLower(arg[n..])))
  }

  /** `^###\s*(\d+(?:hr|h|d|a|ano|anos)?)?$` with the `i` flag, applied to the
      trimmed text: the captured argument ("" when absent), or `None` when the
      text is not a block command. */
  function CommandArgument(t: string): (r: Option<string>)
    ensures r.Some? ==> (r.value == "" || CommandArgSyntax(r.value))
    ensures r.Some? ==> exists sp :: AllSpace(sp) && t == "###" + sp + r.value
  {
    if |t| < 3 || t[..3] != "###" then None
    else
      var rest := t[3..];
      var k := LeadingSpaces(rest);
      var arg := rest[k..];
      assert t == "###" + rest[..k] + arg;
      if arg == "" || CommandArgSyntax(arg) then Some(arg) else None
  }

  /** Every text of the shape `###`, white space, argument is a block command
      with that argument. */
  lemma CommandArgumentComplete(sp: string, arg: string)
    requires AllSpace(sp)
    requires arg == "" || CommandArgSyntax(arg)
    ensures CommandArgument("###" + sp + arg) == Some(arg)
  {
    var t := "###" + sp + arg;
    assert t[..3] == "###";
    var rest := t[3..];
    assert rest == sp + arg;
    assert forall i :: 0 <= i < |sp| ==> rest[i] == sp[i];
    if arg != "" {
      assert rest[|sp|] == arg[0];
      assert arg[..BlockLedger.DigitPrefix(arg)][0] == arg[0];
      LeadingSpacesBefore(rest, |sp|);
    }
    var k := LeadingSpaces(rest);
    assert rest[k..] == arg;
  }

  /** A bare count such as `###5` is a block command, but its argument is not a
      duration; from the owner it deletes the number's block and sets none. */
  lemma BareCountCommandUnblocks(digits: string, s: State, agent: string, m: Message, e: Env)
    requires |digits| > 0 && AllDigits(digits)
    requires m.hasContent && !m.fromMe && m.conversation == "###" + digits
    requires HasOwner(e.owner) && SameNumber(m.from, e.owner.value) && e.db.first
    ensures var o := Handle(s, agent, m, e);
      o.decision == BlockCommand && !BlockLedger.HasLivePair(o.state.ledger, agent, m.from, e.now)
  {
    HandleIncoming(s, agent, m, e);
    OwnerCountCommand(s.(markers := PurgeMarkers(s.markers, e.now)), agent, m.from, digits, e);
  }

  /** `###` and a count from the owner is a block command whose argument does not
      parse, so it leaves the sender unblocked. */
  lemma OwnerCountCommand(s: State, agent: string, from: string, digits: string, e: Env)
    requires |digits| > 0 && AllDigits(digits)
    requires HasOwner(e.owner) && SameNumber(from, e.owner.value) && e.db.first
    ensures var o := Incoming(s, agent, from, "###" + digits, e);
      o.decision == BlockCommand && !BlockLedger.HasLivePair(o.state.ledger, agent, from, e.now)
  {
    CountCommandParses(digits);
    assert Incoming(s, agent, from, "###" + digits, e) == BlockCommandStep(s, agent, from, digits, e);
    BlockLedger.UnparsedBlockClears(s.ledger, agent, from, from, digits, e.now, e.db);
  }

  /** `###` and a count is a block command whose argument is not a duration. */
  lemma CountCommandParses(digits: string)
    requires |digits| > 0 && AllDigits(digits)
    ensures Trim("###" + digits) == "###" + digits && CommandArgument("###" + digits) == Some(digits)
    ensures BlockLedger.ParseDuration(digits).None?
  {
    BlockLedger.DigitPrefixAll(digits);
    BlockLedger.CountIsNoDuration(digits);
    CommandArgumentComplete("", digits);
    assert "###" + "" + digits == "###" + digits;
    TrimDigitCommand(digits);
  }

  /** `###` followed by digits has no white space to trim. */
  lemma TrimDigitCommand(digits: string)
    requires AllDigits(digits)
    ensures Trim("###" + digits) == "###" + digits
  {
    var t := "###" + digits;
    assert !IsSpace(t[0]);
    assert !IsSpace(t[|t| - 1]) by {
      if |digits| > 0 {
        assert t[|t| - 1] == digits[|digits| - 1];
      }
    }
    TrimUnpadded(t);
  }

  /** Trimming a text that starts and ends with visible characters changes
      nothing. */
  lemma TrimUnpadded(t: string)
    requires |t| > 0 && !IsSpace(t[0]) && !IsSpace(t[|t| - 1])
    ensures Trim(t) == t
  {
    assert LeadingSpaces(t) == 0;
    assert t[0..] == t;
    assert TrailingStart(t) == |t|;
    assert t[..|t|] == t;
  }

  // ---------------------------------------------------------------------------
  // History

  /** The last `MaxHistory` turns (all of them when there are fewer). */
  function Window(h: seq<Turn>): (w: seq<Turn>)
    ensures |w| <= MaxHistory
    ensures |h| <= MaxHistory ==> w == h
    ensures |w| == MaxHistory || w == h
    ensures exists p :: p + w == h
  {
    if |h| > MaxHistory then
      assert h[..|h| - MaxHistory] + h[|h| - MaxHistory..] == h;
      h[|h| - MaxHistory..]
    else
      assert [] + h == h;
      h
  }

  lemma WindowKeepsLast(h: seq<Turn>)
    requires |h| > 0
    ensures |Window(h)| > 0 && Window(h)[|Window(h)| - 1] == h[|h| - 1]
  {
  }

  datatype Forwarding = Forwarding(histories: map<string, seq<Turn>>, stamps: map<string, int>,
                                   request: Request, reply: string)

  /** The answer-service step as written: the user turn is pushed onto the stored
      history itself, so when the service fails the stored history keeps the
      untrimmed push. */
  function ForwardAsWritten(histories: map<string, seq<Turn>>, stamps: map<string, int>, agent: string,
                            from: string, text: string, now: int, answer: Answer): (f: Forwarding)
    ensures answer.Answered? ==> f == Forward(histories, stamps, agent, from, text, now, answer)
    ensures answer.AnswerFailed? && from in histories ==>
      f.histories == histories[from := histories[from] + [Turn(User, text)]]
    ensures answer.AnswerFailed? && from !in histories ==> f.histories == histories
    ensures f.request == Forward(histories, stamps, agent, from, text, now, answer).request
  {
    var pushed := TurnsOf(histories, from) + [Turn(User, text)];
    var sent := Window(pushed);
    match answer
    case Answered(r) =>
      var reply := if r != "" then r else NoAnswerText;
      Forwarding(histories[from := sent + [Turn(Assistant, reply)]], stamps[from := now],
                 Request(text, agent, from, sent), reply)
    case AnswerFailed =>
      var kept := if from in histories then histories[from := pushed] else histories;
      Forwarding(kept, stamps[from := now], Request(text, agent, from, sent), ServiceDownText)
  }

  /** The answer-service step with the stored history cut to the window sent: on a
      failure a sender with a stored history keeps the user turn, as the code
      intends, but within the bound. */
  function Forward(histories: map<string, seq<Turn>>, stamps: map<string, int>, agent: string,
                   from: string, text: string, now: int, answer: Answer): (f: Forwarding)
    // the history sent is the stored one plus this turn, cut to its last ten turns
    ensures |f.request.historico| <= MaxHistory
    ensures |f.request.historico| > 0 && f.request.historico[|f.request.historico| - 1] == Turn(User, text)
    ensures exists p :: p + f.request.historico == TurnsOf(histories, from) + [Turn(User, text)]
    ensures f.request.pergunta == text && f.request.agent == agent && f.request.userId == from
    ensures f.stamps == stamps[from := now]
    // a reply is stored after the history sent; a failure stores the history sent
    // for a sender who had one, and nothing for a new sender
    ensures answer.Answered? ==>
      f.histories == histories[from := f.request.historico + [Turn(Assistant, f.reply)]]
      && f.reply == (if answer.resposta != "" then answer.resposta else NoAnswerText)
    ensures answer.AnswerFailed? ==> f.reply == ServiceDownText
    ensures answer.AnswerFailed? && from in histories ==> f.histories == histories[from := f.request.historico]
    ensures answer.AnswerFailed? && from !in histories ==> f.histories == histories
  {
    var sent := Sent(TurnsOf(histories, from), Turn(User, text));
    var reply := if answer.AnswerFailed? then ServiceDownText
                 else if answer.resposta != "" then answer.resposta else NoAnswerText;
    var stored := if answer.Answered? then histories[from := sent + [Turn(Assistant, reply)]]
                  else if from in histories then histories[from := sent] else histories;
    Forwarding(stored, stamps[from := now], Request(text, agent, from, sent), reply)
  }

  /** The history sent for a new turn: the stored turns plus it, cut to the
      window. It ends with the new turn. */
  function Sent(h: seq<Turn>, t: Turn): (w: seq<Turn>)
    ensures |w| <= MaxHistory && |w| > 0 && w[|w| - 1] == t
    ensures exists p :: p + w == h + [t]
  {
    WindowKeepsLast(h + [t]);
    Window(h + [t])
  }

  /** The two versions differ only once a stored history is full: below ten
      turns they store the same thing. */
  lemma ForwardVersionsAgree(histories: map<string, seq<Turn>>, stamps: map<string, int>, agent: string,
                             from: string, text: string, now: int, answer: Answer)
    requires from in histories ==> |histories[from]| < MaxHistory
    ensures ForwardAsWritten(histories, stamps, agent, from, text, now, answer)
         == Forward(histories, stamps, agent, from, text, now, answer)
  {
  }

  /** As written, every failed call adds one turn to a stored history and nothing
      trims it, so a sender whose calls keep failing grows past the bound. */
  lemma FailedForwardGrowsHistory(histories: map<string, seq<Turn>>, stamps: map<string, int>, agent: string,
                                  from: string, text: string, now: int)
    requires from in histories
    ensures var f := ForwardAsWritten(histories, stamps, agent, from, text, now, AnswerFailed);
      from in f.histories && |f.histories[from]| == |histories[from]| + 1
  {
  }

  /** A full history of eleven turns and one failed call leave twelve turns
      stored. */
  lemma FailedForwardBreaksBound(turn: Turn, agent: string, from: string, text: string, now: int)
    ensures var h := seq(MaxHistory + 1, _ => turn);
      var f := ForwardAsWritten(map[from := h], map[], agent, from, text, now, AnswerFailed);
      |f.histories[from]| == MaxHistory + 2
  {
  }

  /** Every stored history has at most eleven turns: the ten sent and the reply. */
  ghost predicate HistoriesBounded(histories: map<string, seq<Turn>>) {
    forall k :: k in histories ==> |histories[k]| <= MaxHistory + 1
  }

  /** Forwarding keeps every stored history within eleven turns. */
  lemma ForwardKeepsBound(histories: map<string, seq<Turn>>, stamps: map<string, int>, agent: string,
                          from: string, text: string, now: int, answer: Answer)
    requires HistoriesBounded(histories)
    ensures HistoriesBounded(Forward(histories, stamps, agent, from, text, now, answer).histories)
  {
  }

  /** `cleanupOldHistories`: forget every sender whose history was last used more
      than two hours ago, in both maps. */
  function SweepHistories(histories: map<string, seq<Turn>>, stamps: map<string, int>, now: int)
    : (r: (map<string, seq<Turn>>, map<string, int>))
    ensures forall k :: k in r.1 <==> k in stamps && now - stamps[k] <= HistoryMaxAgeMs
    ensures forall k :: k in r.1 ==> r.1[k] == stamps[k]
    ensures forall k :: k in r.0 <==> k in histories && !(k in stamps && now - stamps[k] > HistoryMaxAgeMs)
    ensures forall k :: k in r.0 ==> r.0[k] == histories[k]
  {
    (map k | k in histories && !(k in stamps && now - stamps[k] > HistoryMaxAgeMs) :: histories[k],
     map k | k in stamps && now - stamps[k] <= HistoryMaxAgeMs :: stamps[k])
  }

  /** A history used within the last two hours survives the sweep unchanged. */
  lemma RecentHistorySurvives(histories: map<string, seq<Turn>>, stamps: map<string, int>, from: string, used: int, now: int)
    requires from in histories && stamps == map[from := used]
    requires now - used <= HistoryMaxAgeMs
    ensures from in SweepHistories(histories, stamps, now).0
    ensures SweepHistories(histories, stamps, now).0[from] == histories[from]
  {
  }

  // ---------------------------------------------------------------------------
  // The handler

  /** `conversation || extendedTextMessage?.text`, empty when neither is set. */
  function TextOf(m: Message): (t: string)
    ensures m.conversation != "" ==> t == m.conversation
    ensures m.conversation == "" ==> t == m.extendedText
  {
    if m.conversation != "" then m.conversation else m.extendedText
  }

  /** The `###` branch: only the owner may block, for the given duration or a day. */
  function BlockCommandStep(s: State, agent: string, from: string, arg: string, e: Env): (o: Outcome)
    ensures o.request.None?
    ensures !HasOwner(e.owner) ==> o.reply == Some(NoOwnerText) && o.state.ledger == s.ledger
    ensures HasOwner(e.owner) && !SameNumber(from, e.owner.value) ==>
      o.reply == Some(UnknownCommandText) && o.state.ledger == s.ledger
    ensures HasOwner(e.owner) && SameNumber(from, e.owner.value) ==>
      && o.reply.None?
      && o.state == s.(ledger := BlockLedger.Block(s.ledger, agent, from, from, if arg == "" then DefaultBlock else arg, e.now, e.db).table)
  {
    if !HasOwner(e.owner) then Send(s, NoOwnerText, e).(decision := BlockCommand)
    else if SameNumber(from, e.owner.value) then
      var duration := if arg == "" then DefaultBlock else arg;
      var b := BlockLedger.Block(s.ledger, agent, from, from, duration, e.now, e.db);
      Outcome(s.(ledger := b.table), BlockCommand, None, None)
    else Send(s, UnknownCommandText, e).(decision := BlockCommand)
  }

  /** The `##ativar` branch: only the owner may unblock. */
  function UnblockStep(s: State, agent: string, from: string, e: Env): (o: Outcome)
    ensures o.request.None?
    ensures !HasOwner(e.owner) ==> o.reply.None? && o.state == s
    ensures HasOwner(e.owner) && !SameNumber(from, e.owner.value) ==>
      o.reply == Some(UnknownCommandText) && o.state.ledger == s.ledger
    ensures HasOwner(e.owner) && SameNumber(from, e.owner.value) ==>
      && o.reply.None?
      && o.state == s.(ledger := BlockLedger.Unblock(s.ledger, agent, from, e.db.first).table)
  {
    if !HasOwner(e.owner) then Outcome(s, UnblockCommand, None, None)
    else if SameNumber(from, e.owner.value) then
      Outcome(s.(ledger := BlockLedger.Unblock(s.ledger, agent, from, e.db.first).table), UnblockCommand, None, None)
    else Send(s, UnknownCommandText, e).(decision := UnblockCommand)
  }

  /** The hand-off branch: block the sender for a day on the system's behalf and
      tell them a person will take over. */
  function HandoffStep(s: State, agent: string, from: string, e: Env): (o: Outcome)
    ensures o.request.None?
    ensures o.state.ledger == BlockLedger.Block(s.ledger, agent, from, SystemBy, DefaultBlock, e.now, e.db).table
    ensures o.reply == Some(if e.db.first && e.db.second then HandoffText else HandoffFallbackText)
  {
    var b := BlockLedger.Block(s.ledger, agent, from, SystemBy, DefaultBlock, e.now, e.db);
    assert e.db.first && e.db.second ==> b.result.Some? by {
      if e.db.first && e.db.second {
        DefaultBlockParses();
      }
    }
    var text := if b.result.Some? then HandoffText else HandoffFallbackText;
    Send(s.(ledger := b.table), text, e).(decision := Handoff)
  }

  lemma DefaultBlockParses()
    ensures BlockLedger.ParseDuration(DefaultBlock) == Some(BlockLedger.DayMs)
  {
    assert BlockLedger.DigitPrefix(DefaultBlock) == 2 by {
      assert DefaultBlock[2..] == "hr";
      assert DefaultBlock[..2] == "24";
    }
    assert ToLower("hr") == "hr";
    assert DecimalValue("24") == 24 by {
      assert "24"[..1] == "2";
    }
  }

  /** A default block whose delete and insert both succeed stores a row ending a
      day from now. */
  lemma DefaultBlockStoresRow(t: BlockLedger.Table, agent: string, phone: string, blockedBy: string, now: int)
    ensures BlockLedger.Row(agent, phone, now + BlockLedger.DayMs, blockedBy, now) in BlockLedger.Block(t, agent, phone, blockedBy, DefaultBlock, now, BlockLedger.Db(true, true)).table
  {
    DefaultBlockParses();
    BlockLedger.BlockStoresRow(t, agent, phone, blockedBy, DefaultBlock, now, BlockLedger.DayMs);
  }

  /** A text from `from` reaches the answer service: it is neither a command nor
      a hand-off request, and the sender is not blocked (an unreachable ledger
      counts as not blocked, and so does one whose check's sweep fails, since the
      check then reports nothing). */
  predicate Served(s: State, agent: string, from: string, text: string, e: Env) {
    && text != ""
    && CommandArgument(Trim(text)).None?
    && Trim(text) != UnblockWord
    && !HumanRequest.DetectHumanRequest(text)
    && !(e.db.first && e.db.second && BlockLedger.HasLivePair(s.ledger, agent, from, e.now))
  }

  /** The message reaches the answer service: a served text from someone else. */
  predicate ReachesService(s: State, agent: string, m: Message, e: Env) {
    m.hasContent && !m.fromMe && Served(s, agent, m.from, TextOf(m), e)
  }

  /** A message from the owner's side: an echo of a reply, a takeover, or
      nothing. */
  function OwnSide(s: State, agent: string, m: Message, e: Env): (o: Outcome)
    ensures o.request.None? && o.reply.None?
    ensures o.state.histories == s.histories && o.state.stamps == s.stamps
    ensures o.decision == Echo <==> m.id in s.markers
    ensures o.state.markers == if m.id in s.markers then s.markers - {m.id} else s.markers
  {
    if m.id in s.markers then Outcome(s.(markers := s.markers - {m.id}), Echo, None, None)
    else if TakeoverApplies(e.owner, m.from) then
      var b := BlockLedger.Block(s.ledger, agent, m.from, TakeoverBy, DefaultBlock, e.now, e.db);
      Outcome(s.(ledger := b.table), OwnerTakeover, None, None)
    else Outcome(s, OwnerMessage, None, None)
  }

  /** A text from someone else that is none of the commands: silenced while the
      sender is blocked, otherwise forwarded. */
  function Gate(s: State, agent: string, from: string, text: string, e: Env): (o: Outcome)
    ensures o.request.Some? <==> !(e.db.first && e.db.second && BlockLedger.HasLivePair(s.ledger, agent, from, e.now))
    ensures o.request.Some? ==> o.request.value == Forward(s.histories, s.stamps, agent, from, text, e.now, e.answer).request
    ensures o.request.None? ==> o.state.histories == s.histories && o.state.stamps == s.stamps && o.reply.None?
    ensures forall k :: k in o.state.markers ==> k in s.markers || (o.reply.Some? && e.sentId == Some(k))
  {
    var check := BlockLedger.IsBlocked(s.ledger, agent, from, e.now, e.db);
    var s := s.(ledger := check.table);
    if check.blocked then Outcome(s, Silenced, None, None)
    else
      var f := Forward(s.histories, s.stamps, agent, from, text, e.now, e.answer);
      var s := s.(histories := f.histories, stamps := f.stamps);
      var o := Send(s, f.reply, e);
      o.(request := Some(f.request))
  }

  /** A message from someone else: ignored without text, then, in this order, the
      block command, the unblock command, a request for a human, and the gate. */
  function Incoming(s: State, agent: string, from: string, text: string, e: Env): (o: Outcome)
    ensures o.request.Some? <==> Served(s, agent, from, text, e)
    ensures o.request.Some? ==>
      o.request.value == Forward(s.histories, s.stamps, agent, from, text, e.now, e.answer).request
    ensures o.request.None? ==> o.state.histories == s.histories && o.state.stamps == s.stamps
    ensures forall k :: k in o.state.markers ==> k in s.markers || (o.reply.Some? && e.sentId == Some(k))
  {
    if text == "" then Outcome(s, NoText, None, None)
    else
      var t := Trim(text);
      match CommandArgument(t)
      case Some(arg) => BlockCommandStep(s, agent, from, arg, e)
      case None =>
        if t == UnblockWord then UnblockStep(s, agent, from, e)
        else if HumanRequest.DetectHumanRequest(text) then HandoffStep(s, agent, from, e)
        else Gate(s, agent, from, text, e)
  }

  /** The `messages.upsert` handler of agent `agent` for one message. */
  function Handle(s: State, agent: string, m: Message, e: Env): (o: Outcome)
    ensures !m.hasContent ==> o == Outcome(s, NoContent, None, None)
    // the owner's own messages are never answered
    ensures m.fromMe ==> o.request.None? && o.reply.None?
    ensures o.request.Some? <==> ReachesService(s, agent, m, e)
    ensures o.request.Some? ==>
      o.request.value == Forward(s.histories, s.stamps, agent, m.from, TextOf(m), e.now, e.answer).request
    // only forwarding touches the histories
    ensures o.request.None? ==> o.state.histories == s.histories && o.state.stamps == s.stamps
  {
    if !m.hasContent then Outcome(s, NoContent, None, None)
    else
      var s' := s.(markers := PurgeMarkers(s.markers, e.now));
      if m.fromMe then OwnSide(s', agent, m, e)
      else Incoming(s', agent, m.from, TextOf(m), e)
  }

  // ---------------------------------------------------------------------------
  // Properties of the handler

  /** An echo of a reply sent within the window is dropped and its marker used
      up, so a second copy of the same message is not taken for an echo. */
  lemma EchoIsConsumed(s: State, agent: string, m: Message, e: Env, e2: Env)
    requires m.hasContent && m.fromMe
    requires m.id in s.markers && e.now - s.markers[m.id] <= EchoWindowMs
    ensures var o := Handle(s, agent, m, e);
      o.decision == Echo && m.id !in o.state.markers && o.state.ledger == s.ledger
      && Handle(o.state, agent, m, e2).decision != Echo
  {
  }

  /** A marker older than the window no longer suppresses anything. */
  lemma StaleMarkerIsNoEcho(s: State, agent: string, m: Message, e: Env)
    requires m.hasContent && m.fromMe
    requires m.id in s.markers && e.now - s.markers[m.id] > EchoWindowMs
    ensures Handle(s, agent, m, e).decision != Echo
  {
  }

  /** Every marker that survives a message is at most ten seconds old, apart from
      the one for a reply sent while handling it. */
  lemma MarkersStayFresh(s: State, agent: string, m: Message, e: Env)
    requires m.hasContent
    ensures var o := Handle(s, agent, m, e);
      forall k :: k in o.state.markers && !(e.sentId == Some(k) && o.reply.Some?) ==>
        k in s.markers && e.now - s.markers[k] <= EchoWindowMs
  {
    var s' := s.(markers := PurgeMarkers(s.markers, e.now));
    if !m.fromMe {
      assert Handle(s, agent, m, e) == Incoming(s', agent, m.from, TextOf(m), e);
    }
  }

  /** A non-echo message from the owner's side blocks the other party for a day
      exactly when the takeover conditions hold. */
  lemma TakeoverExactly(s: State, agent: string, m: Message, e: Env)
    requires m.hasContent && m.fromMe
    requires !(m.id in s.markers && e.now - s.markers[m.id] <= EchoWindowMs)
    ensures var o := Handle(s, agent, m, e);
      (o.decision == OwnerTakeover <==> TakeoverApplies(e.owner, m.from))
      && (o.decision == OwnerTakeover ==>
            o.state.ledger == BlockLedger.Block(s.ledger, agent, m.from, TakeoverBy, DefaultBlock, e.now, e.db).table)
      && (o.decision != OwnerTakeover ==> o.state.ledger == s.ledger)
  {
  }

  /** After a takeover with the ledger reachable, the other party is blocked for
      exactly a day, on the owner's behalf. */
  lemma TakeoverBlocksForADay(s: State, agent: string, m: Message, e: Env)
    requires m.hasContent && m.fromMe && e.db == BlockLedger.Db(true, true)
    requires !(m.id in s.markers && e.now - s.markers[m.id] <= EchoWindowMs)
    requires TakeoverApplies(e.owner, m.from)
    ensures var o := Handle(s, agent, m, e);
      BlockLedger.Row(agent, m.from, e.now + BlockLedger.DayMs, TakeoverBy, e.now) in o.state.ledger
  {
    var s' := s.(markers := PurgeMarkers(s.markers, e.now));
    assert m.id !in s'.markers;
    assert Handle(s, agent, m, e) == OwnSide(s', agent, m, e);
    DefaultBlockStoresRow(s.ledger, agent, m.from, TakeoverBy, e.now);
  }

  /** Group chats, the status broadcast and the owner's own number are never
      taken over. */
  lemma NoTakeoverOfGroupsOrSelf(owner: Option<string>, from: string)
    requires EndsWith(from, "@g.us") || from == "status@broadcast" || (HasOwner(owner) && SameNumber(from, owner.value))
    ensures !TakeoverApplies(owner, from)
  {
  }

  /** A bare `###` from the owner blocks the sender for a day. */
  lemma BareCommandBlocksForADay(s: State, agent: string, m: Message, e: Env)
    requires m.hasContent && !m.fromMe && m.conversation == "###"
    requires HasOwner(e.owner) && SameNumber(m.from, e.owner.value) && e.db == BlockLedger.Db(true, true)
    ensures var o := Handle(s, agent, m, e);
      o.decision == BlockCommand && o.request.None?
      && BlockLedger.Row(agent, m.from, e.now + BlockLedger.DayMs, m.from, e.now) in o.state.ledger
  {
    HandleIncoming(s, agent, m, e);
    OwnerBareCommand(s.(markers := PurgeMarkers(s.markers, e.now)), agent, m.from, e);
  }

  /** A message from someone else is handled as the incoming text, once the stale
      markers are gone. */
  lemma HandleIncoming(s: State, agent: string, m: Message, e: Env)
    requires m.hasContent && !m.fromMe
    ensures Handle(s, agent, m, e) == Incoming(s.(markers := PurgeMarkers(s.markers, e.now)), agent, m.from, TextOf(m), e)
  {
  }

  /** `###` from the owner is a block command without an argument, so it blocks
      the sender for a day. */
  lemma OwnerBareCommand(s: State, agent: string, from: string, e: Env)
    requires HasOwner(e.owner) && SameNumber(from, e.owner.value) && e.db == BlockLedger.Db(true, true)
    ensures var o := Incoming(s, agent, from, "###", e);
      o.decision == BlockCommand && o.request.None?
      && BlockLedger.Row(agent, from, e.now + BlockLedger.DayMs, from, e.now) in o.state.ledger
  {
    BareCommandParses();
    assert Incoming(s, agent, from, "###", e) == BlockCommandStep(s, agent, from, "", e);
    DefaultBlockStoresRow(s.ledger, agent, from, from, e.now);
  }

  /** `###` alone is a block command without an argument. */
  lemma BareCommandParses()
    ensures Trim("###") == "###" && CommandArgument("###") == Some("")
  {
    TrimDigitCommand("");
    assert "###" + "" == "###";
    CommandArgumentComplete("", "");
    assert "###" + "" + "" == "###";
  }

  /** A block command is handled as one even when its text would also read as a
      request for a human, and neither reaches the answer service. */
  lemma CommandBeforeHandoff(s: State, agent: string, m: Message, e: Env)
    requires m.hasContent && !m.fromMe && TextOf(m) != ""
    requires CommandArgument(Trim(TextOf(m))).Some?
    ensures Handle(s, agent, m, e).decision == BlockCommand
    ensures Handle(s, agent, m, e).request.None?
  {
  }

  /** A request for a human is handed off even when the sender is blocked. */
  lemma HandoffBeforeSilence(s: State, agent: string, m: Message, e: Env)
    requires m.hasContent && !m.fromMe && TextOf(m) != ""
    requires CommandArgument(Trim(TextOf(m))).None? && Trim(TextOf(m)) != UnblockWord
    requires HumanRequest.DetectHumanRequest(TextOf(m))
    ensures Handle(s, agent, m, e).decision == Handoff
  {
  }

  /** A request for a human takes the hand-off step. */
  lemma HandleHandsOff(s: State, agent: string, m: Message, e: Env)
    requires m.hasContent && !m.fromMe && TextOf(m) != ""
    requires CommandArgument(Trim(TextOf(m))).None? && Trim(TextOf(m)) != UnblockWord
    requires HumanRequest.DetectHumanRequest(TextOf(m))
    ensures Handle(s, agent, m, e) == HandoffStep(s.(markers := PurgeMarkers(s.markers, e.now)), agent, m.from, e)
  {
  }

  /** A request for a human from a reachable ledger blocks the sender for a day,
      on the system's behalf, so the following messages are silenced. */
  lemma HandoffSilencesLater(s: State, agent: string, m: Message, e: Env, m2: Message, e2: Env)
    requires m.hasContent && !m.fromMe && TextOf(m) != ""
    requires CommandArgument(Trim(TextOf(m))).None? && Trim(TextOf(m)) != UnblockWord
    requires HumanRequest.DetectHumanRequest(TextOf(m))
    requires e.db == BlockLedger.Db(true, true) && e2.db == BlockLedger.Db(true, true) && m2.from == m.from && e.now <= e2.now < e.now + BlockLedger.DayMs
    ensures var o := Handle(s, agent, m, e);
      !ReachesService(o.state, agent, m2, e2)
  {
    DefaultBlockParses();
    HandleHandsOff(s, agent, m, e);
    var h := HandoffStep(s.(markers := PurgeMarkers(s.markers, e.now)), agent, m.from, e);
    var b := BlockLedger.Block(s.ledger, agent, m.from, SystemBy, DefaultBlock, e.now, e.db);
    assert h.state.ledger == b.table;
    assert b.result.Some?;
    assert b.result.value.until == e.now + BlockLedger.DayMs;
    var row := BlockLedger.Row(agent, m.from, e.now + BlockLedger.DayMs, SystemBy, e.now);
    assert row in h.state.ledger;
    assert BlockLedger.IsPair(row, agent, m2.from) && BlockLedger.Live(row, e2.now);
    BlockedIsNotServed(h.state, agent, m2, e2);
  }

  /** A sender with a live block is not served when the check and its sweep both
      answer, and is served as if unblocked when either fails. */
  lemma BlockedIsNotServed(s: State, agent: string, m: Message, e: Env)
    requires exists r :: r in s.ledger && BlockLedger.IsPair(r, agent, m.from) && BlockLedger.Live(r, e.now)
    ensures ReachesService(s, agent, m, e) ==> !(e.db.first && e.db.second)
    ensures !(e.db.first && e.db.second) && m.hasContent && !m.fromMe ==>
      (ReachesService(s, agent, m, e) <==> ReachesService(s.(ledger := []), agent, m, e))
  {
  }

  /** Handling a message keeps every stored history within eleven turns. */
  lemma HandleKeepsHistoryBound(s: State, agent: string, m: Message, e: Env)
    requires HistoriesBounded(s.histories)
    ensures HistoriesBounded(Handle(s, agent, m, e).state.histories)
  {
    if ReachesService(s, agent, m, e) {
      var s1 := s.(markers := PurgeMarkers(s.markers, e.now));
      var check := BlockLedger.IsBlocked(s1.ledger, agent, m.from, e.now, e.db);
      ForwardKeepsBound(s.histories, s.stamps, agent, m.from, TextOf(m), e.now, e.answer);
    }
  }

  /** The history is keyed by the sender alone: two agents answering the same
      sender from the same state send the same history. */
  lemma HistorySharedAcrossAgents(s: State, a1: string, a2: string, m: Message, e: Env)
    requires ReachesService(s, a1, m, e) && ReachesService(s, a2, m, e)
    ensures Handle(s, a1, m, e).request.value.historico == Handle(s, a2, m, e).request.value.historico
  {
  }
}
