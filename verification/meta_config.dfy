/** The Meta (WhatsApp Cloud API) configuration routes: creating an agent's
    configuration with a fresh verify token and the webhook address to register,
    updating some of its fields, and reading it back. The database answers, the
    random bytes, the `BASE_URL` setting and the request's host are inputs. */
module MetaConfig {
  import opened Common
  import opened Sql

  type Byte = x: int | 0 <= x < 256

  const Required := "Campos obrigat\U{00F3}rios: agent_id, phone_number_id, access_token"
  const AlreadyConfigured := "J\U{00E1} existe uma configura\U{00E7}\U{00E3}o Meta para este agente. Use a rota de atualiza\U{00E7}\U{00E3}o."
  const SaveError := "Erro interno ao salvar configura\U{00E7}\U{00E3}o Meta."
  const IdRequired := "ID da configura\U{00E7}\U{00E3}o \U{00E9} obrigat\U{00F3}rio."
  const NothingToUpdate := "Nenhum dado para atualizar."
  const ConfigNotFound := "Configura\U{00E7}\U{00E3}o n\U{00E3}o encontrada ou n\U{00E3}o pertence ao usu\U{00E1}rio."
  const UpdateError := "Erro interno ao atualizar configura\U{00E7}\U{00E3}o Meta."
  const NotFoundForAgent := "Configura\U{00E7}\U{00E3}o Meta n\U{00E3}o encontrada para este agente."

  // ---------------------------------------------------------------------------
  // Hexadecimal text of the verify token

  predicate IsHexChar(c: char) {
    ('0' <= c <= '9') || ('a' <= c <= 'f')
  }

  function HexChar(d: int): (c: char)
    requires 0 <= d < 16
    ensures IsHexChar(c)
  {
    if d < 10 then ('0' as int + d) as char else ('a' as int + d - 10) as char
  }

  function HexValue(c: char): (d: int)
    requires IsHexChar(c)
    ensures 0 <= d < 16
  {
    if c <= '9' then c as int - '0' as int else c as int - 'a' as int + 10
  }

  /** `buffer.toString('hex')`: two lower-case digits per byte, high nibble
      first. */
  function Hex(bs: seq<Byte>): (h: string)
    ensures |h| == 2 * |bs|
    ensures forall i :: 0 <= i < |h| ==> IsHexChar(h[i])
  {
    if |bs| == 0 then ""
    else [HexChar(bs[0] / 16), HexChar(bs[0] % 16)] + Hex(bs[1..])
  }

  /** Reading hexadecimal text back into bytes. */
  function Unhex(h: string): (bs: seq<Byte>)
    requires |h| % 2 == 0 && forall i :: 0 <= i < |h| ==> IsHexChar(h[i])
    ensures |bs| == |h| / 2
  {
    if |h| == 0 then []
    else [16 * HexValue(h[0]) + HexValue(h[1])] + Unhex(h[2..])
  }

  /** The token's text determines the random bytes it was made from. */
  lemma {:induction false} UnhexHex(bs: seq<Byte>)
    ensures Unhex(Hex(bs)) == bs
  {
    if |bs| > 0 {
      var h := Hex(bs);
      assert h[2..] == Hex(bs[1..]);
      UnhexHex(bs[1..]);
    }
  }

  // ---------------------------------------------------------------------------
  // Creation

  /** The webhook address of the reply: `BASE_URL` when set, otherwise built from
      the request's host; `None` when there is no host, where `host.includes`
      throws. */
  function WebhookUrl(baseUrl: Option<string>, host: Option<string>): (u: Option<string>)
    ensures baseUrl.Some? && baseUrl.value != "" ==> u == Some(baseUrl.value + "/webhook")
    ensures (baseUrl.None? || baseUrl.value == "") ==>
      && (u.None? <==> host.None?)
      && (host.Some? ==> u.value == (if Includes(host.value, "localhost") then "http" else "https") + "://" + host.value + "/webhook")
  {
    if baseUrl.Some? && baseUrl.value != "" then Some(baseUrl.value + "/webhook")
    else match host
      case None => None
      case Some(h) =>
        var protocol := if Includes(h, "localhost") then "http" else "https";
        Some(protocol + "://" + h + "/webhook")
  }

  /** The columns of the insert, in the order of its parameters. */
  const InsertColumns: seq<string> := ["agent_id", "user_id", "phone_number_id", "waba_id", "access_token", "verify_token"]

  /** The insert's text: the column list, a line break and the placeholders. */
  const InsertSql := "INSERT INTO meta (" + "agent_id, user_id, phone_number_id, " + "waba_id, access_token, verify_token)"
                     + "\n       VALUES (" + "?, ?, ?, ?, ?, ?" + ")"

  /** The insert of a new configuration: one parameter per column, in column
      order. */
  function Insert(agentId: Value, uid: Value, phone: Value, waba: Value, token: Value, verifyToken: string)
    : (st: Statement)
    ensures |st.params| == |InsertColumns| && Marks(st.sql) == |st.params|
    ensures st.params[0] == agentId && st.params[1] == uid && st.params[2] == phone
    ensures st.params[4] == token && st.params[5] == Str(verifyToken)
    // a falsy waba id is stored as null
    ensures st.params[3] == if Truthy(waba) then waba else Null
  {
    InsertSqlMarks();
    Statement(InsertSql, [agentId, uid, phone, if Truthy(waba) then waba else Null, token, Str(verifyToken)])
  }

  lemma InsertSqlMarks()
    ensures Marks(InsertSql) == 6
  {
    var p1, p2, p3, p4 := "INSERT INTO meta (", "agent_id, user_id, phone_number_id, ",
                          "waba_id, access_token, verify_token)", "\n       VALUES (";
    var marks := "?, ?, ?, ?, ?, ?";
    Plain(p1);
    Plain(p2);
    Plain(p3);
    Plain(p4);
    SixMarks();
    Plain(")");
    Concat(p1 + p2 + p3 + p4 + marks, ")");
    Concat(p1 + p2 + p3 + p4, marks);
    Concat(p1 + p2 + p3, p4);
    Concat(p1 + p2, p3);
    Concat(p1, p2);
  }

  lemma SixMarks()
    ensures Marks("?, ?, ?, ?, ?, ?") == 6
  {
    var three := "?, ?, ?";
    assert "?, ?, ?, ?, ?, ?" == three + ", " + three;
    ThreeMarks();
    CommaIsPlain();
    Concat(three + ", ", three);
    Concat(three, ", ");
  }

  datatype Exec = Threw | Done(affectedRows: int, insertId: Value)

  /** The data of a successful creation. */
  datatype Created = Created(id: Value, agentId: Value, verifyToken: string, webhookUrl: string)

  datatype Reply = Reply(code: nat, message: string, write: Option<Statement>, created: Option<Created>)

  /** `createMetaConfig`. `existing` is the number of configurations already
      stored for the agent (`None` when the lookup throws); `random` the bytes
      drawn for the verify token. */
  function Create(agentId: Value, phone: Value, waba: Value, token: Value, uid: Value,
                  existing: Option<nat>, random: seq<Byte>, exec: Exec,
                  baseUrl: Option<string>, host: Option<string>): (r: Reply)
    // the three fields are required, before anything is read
    ensures !Truthy(agentId) || !Truthy(phone) || !Truthy(token) <==> r == Reply(400, Required, None, None)
    // an agent has at most one configuration: a second one is refused unwritten
    ensures Truthy(agentId) && Truthy(phone) && Truthy(token) && existing.Some? && existing.value > 0
      ==> r == Reply(400, AlreadyConfigured, None, None)
    ensures Truthy(agentId) && Truthy(phone) && Truthy(token) && existing.None? ==> r == Reply(500, SaveError, None, None)
    ensures r.write.Some? <==> Truthy(agentId) && Truthy(phone) && Truthy(token) && existing == Some(0)
    ensures r.write.Some? ==> r.write.value == Insert(agentId, uid, phone, waba, token, Hex(random))
    ensures r.code == 200 <==> r.write.Some? && exec.Done? && exec.affectedRows != 0 && WebhookUrl(baseUrl, host).Some?
    ensures r.code == 200 ==> r.created == Some(Created(exec.insertId, agentId, Hex(random), WebhookUrl(baseUrl, host).value))
    ensures r.code != 200 ==> r.created.None?
  {
    if !Truthy(agentId) || !Truthy(phone) || !Truthy(token) then Reply(400, Required, None, None)
    else match existing
      case None => Reply(500, SaveError, None, None)
      case Some(n) =>
        if n > 0 then Reply(400, AlreadyConfigured, None, None)
        else
          var verifyToken := Hex(random);
          var st := Insert(agentId, uid, phone, waba, token, verifyToken);
          match exec
          case Threw => Reply(500, SaveError, Some(st), None)
          case Done(affected, insertId) =>
            if affected == 0 then Reply(500, SaveError, Some(st), None)
            else match WebhookUrl(baseUrl, host)
              case None => Reply(500, SaveError, Some(st), None)
              case Some(url) =>
                Reply(200, "Configura\U{00E7}\U{00E3}o Meta criada com sucesso.", Some(st), Some(Created(insertId, agentId, verifyToken, url)))
  }

  // ---------------------------------------------------------------------------
  // Update

  /** The columns an update may set, in the order it sets them. */
  datatype Column = PhoneNumberId | WabaId | AccessToken

  function ColumnName(c: Column): (n: string)
    ensures Marks(n) == 0
  {
    match c
    case PhoneNumberId => Plain("phone_number_id"); "phone_number_id"
    case WabaId => Plain("waba_id"); "waba_id"
    case AccessToken => Plain("access_token"); "access_token"
  }

  function Rank(c: Column): nat {
    match c
    case PhoneNumberId => 0
    case WabaId => 1
    case AccessToken => 2
  }

  datatype Assignment = Assignment(column: Column, value: Value)

  /** The fields an update sets, in the fixed column order: the phone number id
      and the access token when truthy, the WABA id whenever it is present (null
      included). */
  function UpdateFields(phone: Value, waba: Value, token: Value): (fs: seq<Assignment>)
    ensures forall i, j :: 0 <= i < j < |fs| ==> Rank(fs[i].column) < Rank(fs[j].column)
    ensures Assignment(PhoneNumberId, phone) in fs <==> Truthy(phone)
    ensures Assignment(WabaId, waba) in fs <==> waba != Undef
    ensures Assignment(AccessToken, token) in fs <==> Truthy(token)
    ensures forall a :: a in fs ==> a in [Assignment(PhoneNumberId, phone), Assignment(WabaId, waba), Assignment(AccessToken, token)]
  {
    (if Truthy(phone) then [Assignment(PhoneNumberId, phone)] else [])
    + (if waba != Undef then [Assignment(WabaId, waba)] else [])
    + (if Truthy(token) then [Assignment(AccessToken, token)] else [])
  }

  function Columns(fs: seq<Assignment>): (cs: seq<string>)
    ensures |cs| == |fs| && forall i :: 0 <= i < |fs| ==> cs[i] == ColumnName(fs[i].column)
  {
    seq(|fs|, i requires 0 <= i < |fs| => ColumnName(fs[i].column))
  }

  function FieldValues(fs: seq<Assignment>): (vs: seq<Value>)
    ensures |vs| == |fs| && forall i :: 0 <= i < |fs| ==> vs[i] == fs[i].value
  {
    seq(|fs|, i requires 0 <= i < |fs| => fs[i].value)
  }

  /** `UPDATE meta SET <field = ?, ...> WHERE id = ? AND user_id = ?`. */
  function Update(fs: seq<Assignment>, id: string, uid: Value): (st: Statement)
    ensures st.params == FieldValues(fs) + [Str(id), uid]
    ensures Marks(st.sql) == |fs| + 2 + MarksIn(Columns(fs))
  {
    var set_ := Join(Assignments(Columns(fs)), ", ");
    CommaIsPlain();
    MarksOfJoin(Assignments(Columns(fs)), ", ");
    WhereIdAndUserMarks();
    Plain("UPDATE meta SET ");
    Concat("UPDATE meta SET " + set_, WhereIdAndUser);
    Concat("UPDATE meta SET ", set_);
    Statement("UPDATE meta SET " + set_ + WhereIdAndUser, FieldValues(fs) + [Str(id), uid])
  }

  /** `updateMetaConfig`. */
  function UpdateConfig(id: string, phone: Value, waba: Value, token: Value, uid: Value, exec: Exec): (r: Reply)
    ensures id == "" <==> r == Reply(400, IdRequired, None, None)
    // an update that sets nothing is refused
    ensures id != "" && !Truthy(phone) && waba == Undef && !Truthy(token) <==> r == Reply(400, NothingToUpdate, None, None)
    ensures r.write.Some? <==> id != "" && (Truthy(phone) || waba != Undef || Truthy(token))
    ensures r.write.Some? ==> r.write.value == Update(UpdateFields(phone, waba, token), id, uid)
    ensures r.write.Some? ==>
      && (exec.Threw? ==> r == Reply(500, UpdateError, r.write, None))
      && (exec.Done? ==> (r.code == 404 <==> exec.affectedRows == 0))
      && (r.code == 200 <==> exec.Done? && exec.affectedRows != 0)
    ensures r.code == 404 ==> r.message == ConfigNotFound
  {
    if id == "" then Reply(400, IdRequired, None, None)
    else
      var fs := UpdateFields(phone, waba, token);
      if |fs| == 0 then Reply(400, NothingToUpdate, None, None)
      else
        var st := Update(fs, id, uid);
        match exec
        case Threw => Reply(500, UpdateError, Some(st), None)
        case Done(affected, _) =>
          if affected == 0 then Reply(404, ConfigNotFound, Some(st), None)
          else Reply(200, "Configura\U{00E7}\U{00E3}o Meta atualizada com sucesso.", Some(st), None)
  }

  // ---------------------------------------------------------------------------
  // The stored configurations

  /** A row of the `meta` table. */
  datatype Config = Config(id: Value, agentId: Value, userId: Value, phoneNumberId: Value,
                           wabaId: Value, accessToken: Value, verifyToken: Value, createdAt: Value)

  /** The row a creation's insert stores, under the id and the creation instant
      the database gives it. */
  function Inserted(st: Statement, id: Value, createdAt: Value): (c: Config)
    requires |st.params| == |InsertColumns|
    ensures c.id == id && c.createdAt == createdAt
    ensures c.agentId == st.params[0] && c.userId == st.params[1] && c.phoneNumberId == st.params[2]
    ensures c.wabaId == st.params[3] && c.accessToken == st.params[4] && c.verifyToken == st.params[5]
  {
    Config(id, st.params[0], st.params[1], st.params[2], st.params[3], st.params[4], st.params[5], createdAt)
  }

  /** What `getMetaConfig` selects of a row: `id`, `agent_id`,
      `phone_number_id`, `waba_id`, `verify_token` and `created_at`. The owner
      and the access token are not selected. */
  datatype ConfigView = ConfigView(id: Value, agentId: Value, phoneNumberId: Value, wabaId: Value,
                                   verifyToken: Value, createdAt: Value)

  function View(c: Config): ConfigView {
    ConfigView(c.id, c.agentId, c.phoneNumberId, c.wabaId, c.verifyToken, c.createdAt)
  }

  /** `WHERE agent_id = ? AND user_id = ?` for the agent id of the request path,
      which is text. A null or undefined caller id is sent as NULL and matches
      no row. */
  predicate Belongs(c: Config, agentId: string, uid: Value) {
    JsString(c.agentId) == agentId && !Nullish(uid) && c.userId == uid
  }

  /** Row `i` is the first in table order that the query selects. */
  predicate FirstBelonging(t: seq<Config>, i: int, agentId: string, uid: Value) {
    0 <= i < |t| && Belongs(t[i], agentId, uid) && forall j :: 0 <= j < i ==> !Belongs(t[j], agentId, uid)
  }

  /** The selected rows, in table order. */
  function ConfigsOf(t: seq<Config>, agentId: string, uid: Value): (vs: seq<ConfigView>)
    ensures |vs| == 0 <==> forall c :: c in t ==> !Belongs(c, agentId, uid)
    ensures forall v :: v in vs ==> exists c :: c in t && Belongs(c, agentId, uid) && v == View(c)
    ensures |vs| > 0 ==> exists i :: FirstBelonging(t, i, agentId, uid) && vs[0] == View(t[i])
  {
    if |t| == 0 then []
    else
      var rest := ConfigsOf(t[1..], agentId, uid);
      assert forall c :: c in t[1..] ==> c in t;
      assert forall c :: c in t && c != t[0] ==> c in t[1..];
      if Belongs(t[0], agentId, uid) then
        assert FirstBelonging(t, 0, agentId, uid);
        [View(t[0])] + rest
      else
        if |rest| > 0 then
          var i :| FirstBelonging(t[1..], i, agentId, uid) && rest[0] == View(t[1..][i]);
          assert FirstBelonging(t, i + 1, agentId, uid);
          rest
        else rest
  }

  datatype GetReply = GetReply(code: nat, data: Option<ConfigView>)

  /** `getMetaConfig` on the table (`None` when the query throws): the first
      configuration of the agent and caller, without its access token. */
  function GetConfig(agentId: string, uid: Value, t: Option<seq<Config>>): (r: GetReply)
    ensures t.Some? && (forall c :: c in t.value ==> !Belongs(c, agentId, uid)) <==> r.code == 404
    ensures r.code == 200 <==> t.Some? && exists c :: c in t.value && Belongs(c, agentId, uid)
    // the first selected row, in table order
    ensures r.code == 200 ==> exists i :: FirstBelonging(t.value, i, agentId, uid) && r.data == Some(View(t.value[i]))
    ensures r.code != 200 ==> r.data.None?
    ensures t.None? ==> r.code == 500
  {
    match t
    case None => GetReply(500, None)
    case Some(t) =>
      var vs := ConfigsOf(t, agentId, uid);
      if |vs| == 0 then GetReply(404, None)
      else
        assert vs[0] in vs;
        GetReply(200, Some(vs[0]))
  }

  /** `SELECT id FROM meta WHERE verify_token = ? LIMIT 1`, as a count. */
  function TokenCount(t: seq<Config>, token: Value): (n: nat)
    ensures n > 0 <==> exists c :: c in t && c.verifyToken == token
  {
    if |t| == 0 then 0
    else
      var rest := TokenCount(t[1..], token);
      assert forall c :: c in t[1..] ==> c in t;
      assert forall c :: c in t && c != t[0] ==> c in t[1..];
      (if t[0].verifyToken == token then 1 else 0) + rest
  }

  /** A successful creation makes its configuration readable by its owner: the
      agent's configuration is found, with the token handed out. */
  lemma CreateThenGet(agentId: Value, phone: Value, waba: Value, token: Value, uid: Value,
                      random: seq<Byte>, insertId: Value, createdAt: Value, baseUrl: Option<string>,
                      host: Option<string>, t: seq<Config>)
    requires Create(agentId, phone, waba, token, uid, Some(0), random, Done(1, insertId), baseUrl, host).code == 200
    requires forall c :: c in t ==> !Belongs(c, JsString(agentId), uid)
    ensures var r := Create(agentId, phone, waba, token, uid, Some(0), random, Done(1, insertId), baseUrl, host);
      var g := GetConfig(JsString(agentId), uid, Some(t + [Inserted(r.write.value, insertId, createdAt)]));
      && (!Nullish(uid) ==>
            && g.code == 200
            && g.data.value.id == insertId && g.data.value.createdAt == createdAt
            && g.data.value.verifyToken == Str(r.created.value.verifyToken))
      // a token without a user id reads nothing back, not even its own row
      && (Nullish(uid) ==> g.code == 404)
  {
    var r := Create(agentId, phone, waba, token, uid, Some(0), random, Done(1, insertId), baseUrl, host);
    var row := Inserted(r.write.value, insertId, createdAt);
    if !Nullish(uid) {
      OnlyRowFound(t, row, JsString(agentId), uid);
    }
  }

  /** Appending the agent's only row makes it the one read. */
  lemma OnlyRowFound(t: seq<Config>, row: Config, agentId: string, uid: Value)
    requires forall c :: c in t ==> !Belongs(c, agentId, uid)
    requires Belongs(row, agentId, uid)
    ensures GetConfig(agentId, uid, Some(t + [row])) == GetReply(200, Some(View(row)))
  {
    var t' := t + [row];
    assert row in t';
    var g := GetConfig(agentId, uid, Some(t'));
    assert forall j :: 0 <= j < |t| ==> t'[j] == t[j];
    var i :| FirstBelonging(t', i, agentId, uid) && g.data == Some(View(t'[i]));
    assert i == |t|;
  }

  // ---------------------------------------------------------------------------
  // Properties

  /** Sixteen random bytes make a 32-character lower-case hexadecimal token. */
  lemma VerifyTokenShape(random: seq<Byte>)
    requires |random| == 16
    ensures |Hex(random)| == 32 && forall i :: 0 <= i < 32 ==> IsHexChar(Hex(random)[i])
  {
  }

  /** The update's placeholders and parameters line up: one per field set,
      then the id and the caller. */
  lemma UpdateLinesUp(phone: Value, waba: Value, token: Value, id: string, uid: Value)
    ensures var fs := UpdateFields(phone, waba, token);
      var st := Update(fs, id, uid);
      && Marks(st.sql) == |st.params| == |fs| + 2
      && st.params[|st.params| - 2..] == [Str(id), uid]
  {
    var fs := UpdateFields(phone, waba, token);
    NoMarksIn(Columns(fs));
  }

  /** An explicit null WABA id is written (clearing the column), while an empty
      phone number id or token is skipped. */
  lemma NullWabaIsWritten(id: string, uid: Value, exec: Exec)
    requires id != ""
    ensures UpdateFields(Str(""), Null, Str("")) == [Assignment(WabaId, Null)]
    ensures UpdateConfig(id, Str(""), Null, Str(""), uid, exec).write.Some?
  {
  }

  /** Without `BASE_URL`, the scheme is plain HTTP exactly for a local host, and
      the address always ends in the webhook path. */
  lemma WebhookScheme(host: string)
    ensures var u := WebhookUrl(None, Some(host)).value;
      && EndsWith(u, "/webhook")
      && (Includes(host, "localhost") <==> u[..7] == "http://")
  {
    var scheme := if Includes(host, "localhost") then "http" else "https";
    var u := WebhookUrl(None, Some(host)).value;
    assert u == (scheme + "://" + host) + "/webhook";
    assert u[|u| - 8..] == "/webhook";
    if !Includes(host, "localhost") {
      assert u[..7][4] == 's';
    } else {
      assert u[..7] == "http://";
    }
  }

  /** When the request carries no host (and no `BASE_URL` is set), the row has
      already been inserted when the address computation fails: the caller gets
      a 500 for a configuration that exists. */
  lemma MissingHostAfterInsert(agentId: Value, phone: Value, waba: Value, token: Value, uid: Value,
                               random: seq<Byte>, insertId: Value)
    requires Truthy(agentId) && Truthy(phone) && Truthy(token)
    ensures var r := Create(agentId, phone, waba, token, uid, Some(0), random, Done(1, insertId), None, None);
      r.code == 500 && r.write.Some?
  {
  }
}
