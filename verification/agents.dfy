/** The agent routes: listing, reading, creating, updating and deleting the rows of
    the `agent` table that belong to the caller. The statements are built from the
    request body's keys; what the database answers is an input. A body is the
    sequence of its fields in the order `Object.keys` lists them. */
module Agents {
  import opened Common
  import opened Sql

  datatype Field = Field(key: string, value: Value)
  type Body = seq<Field>

  function Keys(body: Body): (ks: seq<string>)
    ensures |ks| == |body|
    ensures forall i :: 0 <= i < |body| ==> ks[i] == body[i].key
  {
    seq(|body|, i requires 0 <= i < |body| => body[i].key)
  }

  function Values(body: Body): (vs: seq<Value>)
    ensures |vs| == |body|
    ensures forall i :: 0 <= i < |body| ==> vs[i] == body[i].value
  {
    seq(|body|, i requires 0 <= i < |body| => body[i].value)
  }

  /** An object's keys are distinct. */
  predicate UniqueKeys(body: Body) {
    forall i, j :: 0 <= i < j < |body| ==> body[i].key != body[j].key
  }

  /** `body[k]`, `None` for a missing key. */
  function Lookup(body: Body, k: string): (r: Option<Value>)
    ensures r.None? <==> k !in Keys(body)
  {
    if |body| == 0 then None
    else if body[0].key == k then Some(body[0].value)
    else Lookup(body[1..], k)
  }

  const NotFound := "Agente n\U{00E3}o encontrado ou n\U{00E3}o pertence ao usu\U{00E1}rio"
  const NoData := "Nenhum dado enviado"
  const InsertFailed := "Falha ao inserir agente"
  const InsertError := "Erro ao inserir agente"
  const NotEnoughData := "Dados insuficientes para atualiza\U{00E7}\U{00E3}o"

  /** What a write statement returns: it throws, or it reports the affected rows
      and the new row's id. */
  datatype Exec = Threw | Done(affectedRows: int, insertId: Value)

  /** A route's reply: the HTTP code and message, the query and the write it
      issued, if any, the id it reports for a new row and the data it returns. */
  datatype Reply = Reply(code: nat, message: string, read: Option<Statement>, write: Option<Statement>,
                         newId: Option<Value>, data: Value)

  /** A reply that issued nothing. */
  function Refusal(code: nat, message: string): Reply {
    Reply(code, message, None, None, None, Undef)
  }

  // ---------------------------------------------------------------------------
  // The table as the reads and the delete see it

  /** A row of the `agent` table: its id, its owner and what `SELECT *` returns
      for it. */
  datatype Stored = Stored(id: Value, userId: Value, row: Value)
  type Table = seq<Stored>

  /** `user_id = ?`: a null or undefined parameter is sent as NULL, which
      compares unknown and so matches no row. */
  predicate Owns(s: Stored, uid: Value) {
    !Nullish(uid) && s.userId == uid
  }

  /** `WHERE id = ? AND user_id = ?` for the id of the request path, which is
      text: the row's id is compared in its decimal form. */
  predicate IsTarget(s: Stored, id: string, uid: Value) {
    JsString(s.id) == id && Owns(s, uid)
  }

  /** `SELECT * FROM agent WHERE user_id = ?`, in table order. */
  function RowsOf(t: Table, uid: Value): (rows: seq<Value>)
    ensures |rows| <= |t|
    ensures forall v :: v in rows ==> exists s :: s in t && Owns(s, uid) && s.row == v
    ensures forall s :: s in t && Owns(s, uid) ==> s.row in rows
  {
    if |t| == 0 then []
    else
      var rest := RowsOf(t[1..], uid);
      assert forall s :: s in t[1..] ==> s in t;
      assert forall s :: s in t && s != t[0] ==> s in t[1..];
      if Owns(t[0], uid) then [t[0].row] + rest else rest
  }

  /** `SELECT * FROM agent WHERE id = ? AND user_id = ?`, in table order. */
  function TargetRows(t: Table, id: string, uid: Value): (rows: seq<Value>)
    ensures |rows| <= |t|
    ensures forall v :: v in rows ==> exists s :: s in t && IsTarget(s, id, uid) && s.row == v
    ensures |rows| == 0 <==> forall s :: s in t ==> !IsTarget(s, id, uid)
  {
    if |t| == 0 then []
    else
      var rest := TargetRows(t[1..], id, uid);
      assert forall s :: s in t[1..] ==> s in t;
      assert forall s :: s in t && s != t[0] ==> s in t[1..];
      if IsTarget(t[0], id, uid) then [t[0].row] + rest else rest
  }

  /** The table after `DELETE FROM agent WHERE id = ? AND user_id = ?`. */
  function WithoutTargets(t: Table, id: string, uid: Value): (t': Table)
    ensures forall s :: s in t' <==> s in t && !IsTarget(s, id, uid)
    ensures |t'| + |TargetRows(t, id, uid)| == |t|
  {
    if |t| == 0 then []
    else
      var rest := WithoutTargets(t[1..], id, uid);
      assert forall s :: s in t[1..] ==> s in t;
      assert forall s :: s in t && s != t[0] ==> s in t[1..];
      if IsTarget(t[0], id, uid) then rest else [t[0]] + rest
  }

  /** `{ ...body, user_id }`: an existing `user_id` is overwritten where it
      stands; otherwise the key is added last. */
  function WithUserId(body: Body, uid: Value): (r: Body)
    ensures Keys(r) == if "user_id" in Keys(body) then Keys(body) else Keys(body) + ["user_id"]
    ensures forall i :: 0 <= i < |body| && body[i].key != "user_id" ==> r[i] == body[i]
    ensures forall i :: 0 <= i < |r| && r[i].key == "user_id" ==> r[i].value == uid
  {
    var replaced := seq(|body|, i requires 0 <= i < |body| =>
      if body[i].key == "user_id" then Field("user_id", uid) else body[i]);
    assert Keys(replaced) == Keys(body);
    if "user_id" in Keys(body) then replaced else replaced + [Field("user_id", uid)]
  }

  /** `INSERT INTO agent (<keys>) VALUES (<one ? per key>)` with the values in key
      order. */
  function Insert(data: Body): (st: Statement)
    ensures |st.params| == |data|
    ensures forall i :: 0 <= i < |data| ==> st.params[i] == data[i].value
    // every placeholder has its parameter, unless a key smuggles in more
    ensures Marks(st.sql) == |st.params| + MarksIn(Keys(data))
  {
    var columns := Join(Keys(data), ", ");
    var placeholders := Join(Placeholders(|data|), ", ");
    CommaIsPlain();
    MarksOfJoin(Keys(data), ", ");
    MarksOfJoin(Placeholders(|data|), ", ");
    var open := "INSERT INTO agent (";
    var middle := ") VALUES (";
    Plain(open);
    Plain(middle);
    Plain(")");
    var sql := open + columns + middle + placeholders + ")";
    Concat(open + columns + middle + placeholders, ")");
    Concat(open + columns + middle, placeholders);
    Concat(open + columns, middle);
    Concat(open, columns);
    Statement(sql, Values(data))
  }

  /** `UPDATE agent SET <key = ?, ...> WHERE id = ? AND user_id = ?` with the
      values in key order, then the id and the caller. */
  function Update(id: string, data: Body, uid: Value): (st: Statement)
    ensures |st.params| == |data| + 2
    ensures st.params[..|data|] == Values(data) && st.params[|data|..] == [Str(id), uid]
    ensures Marks(st.sql) == |st.params| + MarksIn(Keys(data))
  {
    var fields := Join(Assignments(Keys(data)), ", ");
    CommaIsPlain();
    MarksOfJoin(Assignments(Keys(data)), ", ");
    var sql := "UPDATE agent SET " + fields + WhereIdAndUser;
    WhereIdAndUserMarks();
    Plain("UPDATE agent SET ");
    Concat("UPDATE agent SET " + fields, WhereIdAndUser);
    Concat("UPDATE agent SET ", fields);
    var params := Values(data) + [Str(id), uid];
    assert params[..|data|] == Values(data);
    Statement(sql, params)
  }

  // ---------------------------------------------------------------------------
  // Routes

  /** `SELECT * FROM agent WHERE user_id = ?`. */
  function SelectMine(uid: Value): (st: Statement)
    ensures st.params == [uid] && Marks(st.sql) == |st.params|
  {
    var head := "SELECT * FROM agent WHERE user_id = ";
    Plain(head);
    Concat(head, "?");
    Statement(head + "?", [uid])
  }

  /** `SELECT * FROM agent WHERE id = ? AND user_id = ?`. */
  function SelectOne(id: Value, uid: Value): (st: Statement)
    ensures st.params == [id, uid] && Marks(st.sql) == |st.params|
  {
    WhereIdAndUserMarks();
    Plain("SELECT * FROM agent");
    Concat("SELECT * FROM agent", WhereIdAndUser);
    Statement("SELECT * FROM agent" + WhereIdAndUser, [id, uid])
  }

  /** `getAgents`: the caller's rows, or 500 when the query throws (`None` for
      the table). */
  function GetAgents(uid: Value, t: Option<Table>): (r: Reply)
    ensures r.read == Some(SelectMine(uid)) && r.write.None?
    ensures r.code == 200 <==> t.Some?
    ensures t.Some? ==> r.data == Arr(RowsOf(t.value, uid))
    ensures t.None? ==> r.code == 500
  {
    match t
    case None => Reply(500, "Erro ao buscar agentes", Some(SelectMine(uid)), None, None, Undef)
    case Some(t) => Reply(200, "", Some(SelectMine(uid)), None, None, Arr(RowsOf(t, uid)))
  }

  /** `getAgentById`: the first of the caller's rows with the id. */
  function GetAgentById(id: string, uid: Value, t: Option<Table>): (r: Reply)
    ensures r.read == Some(SelectOne(Str(id), uid)) && r.write.None?
    ensures t.Some? && |TargetRows(t.value, id, uid)| == 0 <==> r.code == 404
    ensures r.code == 404 ==> r.message == NotFound
    ensures r.code == 200 <==> t.Some? && |TargetRows(t.value, id, uid)| > 0
    ensures r.code == 200 ==> r.data == TargetRows(t.value, id, uid)[0]
    ensures t.None? ==> r.code == 500
  {
    var st := SelectOne(Str(id), uid);
    match t
    case None => Reply(500, "Erro ao buscar agente", Some(st), None, None, Undef)
    case Some(t) =>
      var rows := TargetRows(t, id, uid);
      if |rows| == 0 then Reply(404, NotFound, Some(st), None, None, Undef)
      else Reply(200, "", Some(st), None, None, rows[0])
  }

  /** `createAgent`: `exec` is what the insert returns, `fetched` what the
      read-back of the new row returns. */
  function CreateAgent(body: Body, uid: Value, exec: Exec, fetched: Option<seq<Value>>): (r: Reply)
    // an empty body is refused before any statement
    ensures |body| == 0 <==> r == Refusal(400, NoData)
    ensures |body| > 0 ==> r.write == Some(Insert(WithUserId(body, uid)))
    ensures |body| > 0 ==>
      && (r.code == 200 <==> exec.Done? && exec.affectedRows != 0 && fetched.Some?)
      && (exec.Done? && exec.affectedRows == 0 ==> r.code == 500 && r.message == InsertFailed)
      // the new row is read back by its id and the caller, and both are reported
      && (exec.Done? && exec.affectedRows != 0 ==> r.read == Some(SelectOne(exec.insertId, uid)))
      && (r.code == 200 ==> r.newId == Some(exec.insertId))
      && (r.code == 200 && |fetched.value| > 0 ==> r.data == fetched.value[0])
    ensures r.code != 200 ==> r.newId.None?
  {
    if |body| == 0 then Refusal(400, NoData)
    else
      var st := Insert(WithUserId(body, uid));
      match exec
      case Threw => Reply(500, InsertError, None, Some(st), None, Undef)
      case Done(affected, insertId) =>
        if affected == 0 then Reply(500, InsertFailed, None, Some(st), None, Undef)
        else
          var back := SelectOne(insertId, uid);
          match fetched
          case None => Reply(500, InsertError, Some(back), Some(st), None, Undef)
          case Some(rows) =>
            Reply(200, "Agente inserido com sucesso", Some(back), Some(st), Some(insertId),
                  if |rows| > 0 then rows[0] else Undef)
  }

  /** `updateAgent`: a missing id or an empty body is refused; no matched row is
      404. */
  function UpdateAgent(id: string, body: Body, uid: Value, exec: Exec): (r: Reply)
    ensures id == "" || |body| == 0 <==> r == Refusal(400, NotEnoughData)
    ensures id != "" && |body| > 0 ==>
      && r.write == Some(Update(id, body, uid))
      && (exec.Threw? ==> r.code == 500)
      && (exec.Done? ==> (r.code == 404 <==> exec.affectedRows == 0))
      && (r.code == 404 ==> r.message == NotFound)
      && (r.code == 200 <==> exec.Done? && exec.affectedRows != 0)
  {
    if id == "" || |body| == 0 then Refusal(400, NotEnoughData)
    else
      var st := Update(id, body, uid);
      match exec
      case Threw => Reply(500, "Erro ao atualizar agente", None, Some(st), None, Undef)
      case Done(affected, _) =>
        if affected == 0 then Reply(404, NotFound, None, Some(st), None, Undef)
        else Reply(200, "Agente atualizado com sucesso", None, Some(st), None, Undef)
  }

  /** `DELETE FROM agent WHERE id = ? AND user_id = ?`. */
  function Delete(id: string, uid: Value): (st: Statement)
    ensures Marks(st.sql) == |st.params| && st.params == [Str(id), uid]
  {
    var sql := "DELETE FROM agent" + WhereIdAndUser;
    WhereIdAndUserMarks();
    Plain("DELETE FROM agent");
    Concat("DELETE FROM agent", WhereIdAndUser);
    Statement(sql, [Str(id), uid])
  }

  /** `deleteAgent` on the table (`None` when the delete throws): the reply and
      the table left behind. No matched row is 404. */
  function DeleteAgent(id: string, uid: Value, t: Option<Table>): (r: (Reply, Option<Table>))
    ensures r.0.write == Some(Delete(id, uid)) && r.0.read.None?
    ensures t.None? ==> r.0.code == 500 && r.1.None?
    ensures t.Some? ==> r.1 == Some(WithoutTargets(t.value, id, uid))
    ensures t.Some? ==> (r.0.code == 404 <==> |TargetRows(t.value, id, uid)| == 0)
    ensures r.0.code == 404 ==> r.0.message == NotFound
    ensures r.0.code == 200 <==> t.Some? && |TargetRows(t.value, id, uid)| > 0
  {
    var st := Delete(id, uid);
    match t
    case None => (Reply(500, "Erro ao deletar agente", None, Some(st), None, Undef), None)
    case Some(t) =>
      var t' := WithoutTargets(t, id, uid);
      // `affectedRows` is the number of rows the delete removed
      if |t| - |t'| == 0 then (Reply(404, NotFound, None, Some(st), None, Undef), Some(t'))
      else (Reply(200, "Agente deletado com sucesso", None, Some(st), None, Undef), Some(t'))
  }

  // ---------------------------------------------------------------------------
  // Properties

  /** The token's user wins: whatever `user_id` the body carries, the inserted
      row is written with the caller's, and every other field is written as
      sent. */
  lemma {:induction false} TokenUserWins(body: Body, uid: Value)
    requires UniqueKeys(body)
    ensures Lookup(WithUserId(body, uid), "user_id") == Some(uid)
    ensures forall k :: k != "user_id" ==> Lookup(WithUserId(body, uid), k) == Lookup(body, k)
  {
    var r := WithUserId(body, uid);
    LookupFinds(r, "user_id", uid);
    forall k | k != "user_id"
      ensures Lookup(r, k) == Lookup(body, k)
    {
      if k in Keys(body) {
        var i :| 0 <= i < |body| && Keys(body)[i] == k;
        LookupAt(body, i);
        assert r[i] == body[i];
        UniqueKeysOf(body, uid);
        LookupAt(r, i);
      } else {
        assert k !in Keys(r);
      }
    }
  }

  /** The overwritten body still has one field per key. */
  lemma UniqueKeysOf(body: Body, uid: Value)
    requires UniqueKeys(body)
    ensures UniqueKeys(WithUserId(body, uid))
  {
    var r := WithUserId(body, uid);
    forall i, j | 0 <= i < j < |r|
      ensures r[i].key != r[j].key
    {
      assert Keys(r)[i] == r[i].key && Keys(r)[j] == r[j].key;
      if j < |body| {
        assert Keys(body)[i] == body[i].key && Keys(body)[j] == body[j].key;
      }
    }
  }

  /** Another user's rows are never listed, read or deleted: each route's answer
      is the same with or without them. */
  lemma OthersRowsUntouched(id: string, uid: Value, t: Table, s: Stored)
    requires s.userId != uid
    ensures s in t ==> s in DeleteAgent(id, uid, Some(t)).1.value
    ensures GetAgents(uid, Some(t + [s])) == GetAgents(uid, Some(t))
    ensures GetAgentById(id, uid, Some(t + [s])) == GetAgentById(id, uid, Some(t))
  {
    RowsOfAppend(t, s, uid);
    TargetRowsAppend(t, s, id, uid);
  }

  lemma {:induction false} RowsOfAppend(t: Table, s: Stored, uid: Value)
    requires s.userId != uid
    ensures RowsOf(t + [s], uid) == RowsOf(t, uid)
  {
    if |t| > 0 {
      assert (t + [s])[1..] == t[1..] + [s];
      RowsOfAppend(t[1..], s, uid);
    } else {
      assert RowsOf([s][1..], uid) == [];
    }
  }

  lemma {:induction false} TargetRowsAppend(t: Table, s: Stored, id: string, uid: Value)
    requires s.userId != uid
    ensures TargetRows(t + [s], id, uid) == TargetRows(t, id, uid)
  {
    if |t| > 0 {
      assert (t + [s])[1..] == t[1..] + [s];
      TargetRowsAppend(t[1..], s, id, uid);
    } else {
      assert TargetRows([s][1..], id, uid) == [];
    }
  }

  /** Deleting an agent makes it unreadable: a later read of the same id by the
      same caller is a 404. */
  lemma DeleteThenGet(id: string, uid: Value, t: Table)
    ensures var t' := DeleteAgent(id, uid, Some(t)).1.value;
      GetAgentById(id, uid, Some(t')).code == 404
  {
  }

  /** With distinct keys, the field at position `i` is the one found. */
  lemma {:induction false} LookupAt(body: Body, i: nat)
    requires UniqueKeys(body) && i < |body|
    ensures Lookup(body, body[i].key) == Some(body[i].value)
  {
    if i > 0 {
      assert body[0].key != body[i].key;
      LookupAt(body[1..], i - 1);
    }
  }

  /** Whatever field a key finds carries the value all such fields carry. */
  lemma {:induction false} LookupFinds(body: Body, k: string, v: Value)
    requires k in Keys(body)
    requires forall i :: 0 <= i < |body| && body[i].key == k ==> body[i].value == v
    ensures Lookup(body, k) == Some(v)
  {
    if body[0].key != k {
      assert Keys(body) == [body[0].key] + Keys(body[1..]);
      LookupFinds(body[1..], k, v);
    }
  }

  /** When no key holds a `?` (ordinary column names), the insert has exactly one
      placeholder per parameter and the caller's id among them. */
  lemma InsertLinesUp(body: Body, uid: Value)
    requires forall i :: 0 <= i < |body| ==> Marks(body[i].key) == 0
    ensures var st := Insert(WithUserId(body, uid));
      Marks(st.sql) == |st.params| && uid in st.params
  {
    var data := WithUserId(body, uid);
    Plain("user_id");
    NoMarksIn(Keys(data));
    var j :| 0 <= j < |data| && Keys(data)[j] == "user_id";
    assert Insert(data).params[j] == uid;
  }

  /** The same for the update: one placeholder per body field, then the id and
      the caller. */
  lemma UpdateLinesUp(id: string, body: Body, uid: Value)
    requires forall i :: 0 <= i < |body| ==> Marks(body[i].key) == 0
    ensures var st := Update(id, body, uid);
      Marks(st.sql) == |body| + 2 == |st.params|
      && st.params[|body|] == Str(id) && st.params[|body| + 1] == uid
  {
    NoMarksIn(Keys(body));
    var st := Update(id, body, uid);
    assert st.params[|body|..][0] == st.params[|body|];
  }
}
