/** The session credential store: one document collection keyed by string ids. The
    session's own credentials live under the session id, and every signal key
    lives under `category-id`. Every read, write and delete may fail; a failure
    is swallowed (a read yields nothing, a write or delete changes nothing), so
    each operation is a total function of the collection and an `ok` flag.
    Serialisation through the binary-safe JSON replacer and reviver is taken to
    round-trip, so a value is stored as the value itself. */
module CredentialStore {
  import opened Common

  type Doc = map<string, Value>
  type Collection = map<string, Doc>

  /** The fields `{...v}` copies out of a value: an object's own fields, the
      indexed elements of an array or the characters of a string, and nothing
      for a primitive. */
  function Spread(v: Value): (m: map<string, Value>)
    ensures v.Obj? ==> m == v.fields
    ensures v.Arr? ==> forall i :: 0 <= i < |v.items| ==> NatToString(i) in m && m[NatToString(i)] == v.items[i]
    ensures !(v.Obj? || v.Arr? || v.Str?) ==> m == map[]
  {
    match v
    case Obj(fields) => fields
    case Arr(xs) => map i | 0 <= i < |xs| :: NatToString(i) := xs[i]
    case Str(s) => map i | 0 <= i < |s| :: NatToString(i) := Str([s[i]])
    case _ => map[]
  }

  /** `{ _id: id, ...data }`: a field `_id` of the data wins over the id. */
  function Stored(id: string, data: Value): Doc {
    map["_id" := Str(id)] + Spread(data)
  }

  /** `findOne({_id: id})`, with a failed read yielding nothing. */
  function ReadData(c: Collection, id: string, ok: bool): (r: Option<Doc>)
    ensures r.Some? <==> ok && id in c
    ensures r.Some? ==> r.value == c[id]
  {
    if ok && id in c then Some(c[id]) else None
  }

  /** `replaceOne({_id: id}, {_id: id, ...data}, {upsert: true})`. Serialising
      `undefined` yields no JSON text, so parsing it throws and nothing is written. */
  function WriteData(c: Collection, id: string, data: Value, ok: bool): (r: Collection)
    ensures !ok || data.Undef? ==> r == c
    ensures forall k :: k != id ==> (k in r <==> k in c)
    ensures forall k :: k != id && k in c ==> r[k] == c[k]
    ensures ok && !data.Undef? ==> id in r && "_id" in r[id] && r[id]["_id"] == (if "_id" in Spread(data) then Spread(data)["_id"] else Str(id))
  {
    if !ok || data.Undef? then c else c[id := Stored(id, data)]
  }

  /** `deleteOne({_id: id})`. */
  function RemoveData(c: Collection, id: string, ok: bool): (r: Collection)
    ensures ok ==> id !in r
    ensures !ok ==> r == c
    ensures forall k :: k != id ==> (k in r <==> k in c)
    ensures forall k :: k != id && k in c ==> r[k] == c[k]
  {
    if ok then c - {id} else c
  }

  /** `(await readData(sessionId)) || initAuthCreds()`: a found document is an
      object, hence truthy, so the fresh credentials are used exactly when the
      read finds nothing. */
  function LoadCreds(c: Collection, sessionId: string, ok: bool, initCreds: Value): (r: Value)
    ensures ok && sessionId in c ==> r == Obj(c[sessionId])
    ensures !(ok && sessionId in c) ==> r == initCreds
  {
    match ReadData(c, sessionId, ok)
    case Some(d) => Obj(d)
    case None => initCreds
  }

  // ---------------------------------------------------------------------------
  // Signal keys

  /** The document id of key `id` of category `category`. */
  function KeyOf(category: string, id: string): string {
    category + "-" + id
  }

  const SyncKeyCategory := "app-state-sync-key"

  /** The value `keys.get` reports for one id: null when the read finds nothing,
      otherwise the stored document, decoded by `decode` for app-state sync keys. */
  function KeyValue(c: Collection, category: string, id: string, failing: set<string>, decode: Value -> Value): (r: Value)
    ensures var k := KeyOf(category, id);
      k in failing || k !in c ==> r == Null
    ensures var k := KeyOf(category, id);
      k !in failing && k in c && category != SyncKeyCategory ==> r == Obj(c[k])
  {
    var k := KeyOf(category, id);
    match ReadData(c, k, k !in failing)
    case None => Null
    case Some(d) => if category == SyncKeyCategory then decode(Obj(d)) else Obj(d)
  }

  /** `keys.get(type, ids)`: one entry for every requested id. The reads of the
      keys in `failing` fail. */
  function KeysGet(c: Collection, category: string, ids: seq<string>, failing: set<string>, decode: Value -> Value): (r: map<string, Value>)
    ensures forall id :: id in r <==> id in ids
    ensures forall id :: id in ids ==> r[id] == KeyValue(c, category, id, failing, decode)
  {
    map id | id in ids :: KeyValue(c, category, id, failing, decode)
  }

  /** One `(category, id, value)` triple of the argument of `keys.set`, in the
      order the nested `for ... in` loops visit them. */
  datatype KeyWrite = KeyWrite(category: string, id: string, value: Value)

  /** One task of `keys.set`: a truthy value is written, anything else deletes. */
  function ApplyWrite(c: Collection, w: KeyWrite, failing: set<string>): (r: Collection)
    ensures var k := KeyOf(w.category, w.id);
      forall k' :: k' != k ==> (k' in r <==> k' in c) && (k' in c ==> r[k'] == c[k'])
  {
    var k := KeyOf(w.category, w.id);
    if Truthy(w.value) then WriteData(c, k, w.value, k !in failing)
    else RemoveData(c, k, k !in failing)
  }

  /** `keys.set(data)`: the tasks applied in the order they are issued. The
      operations on the keys in `failing` fail. */
  function KeysSet(c: Collection, ws: seq<KeyWrite>, failing: set<string>): (r: Collection)
    decreases |ws|
  {
    if |ws| == 0 then c
    else ApplyWrite(KeysSet(c, ws[..|ws| - 1], failing), ws[|ws| - 1], failing)
  }

  predicate Targets(ws: seq<KeyWrite>, k: string) {
    exists j :: 0 <= j < |ws| && KeyOf(ws[j].category, ws[j].id) == k
  }

  /** A document no task names keeps its presence and contents. */
  lemma {:induction false} KeysSetUntouched(c: Collection, ws: seq<KeyWrite>, failing: set<string>, k: string)
    requires !Targets(ws, k)
    ensures var r := KeysSet(c, ws, failing);
      (k in r <==> k in c) && (k in c ==> r[k] == c[k])
    decreases |ws|
  {
    if |ws| > 0 {
      var init := ws[..|ws| - 1];
      assert !Targets(init, k);
      KeysSetUntouched(c, init, failing, k);
    }
  }

  /** A key whose every operation fails keeps its document as it was. */
  lemma {:induction false} KeysSetFailingKeeps(c: Collection, ws: seq<KeyWrite>, failing: set<string>, k: string)
    requires k in failing
    ensures var r := KeysSet(c, ws, failing);
      (k in r <==> k in c) && (k in c ==> r[k] == c[k])
    decreases |ws|
  {
    if |ws| > 0 {
      KeysSetFailingKeeps(c, ws[..|ws| - 1], failing, k);
    }
  }

  /** The last task naming a key decides that key's document: a truthy value
      replaces it, any other value removes it (when the operation succeeds). */
  lemma KeysSetLastWriter(c: Collection, ws: seq<KeyWrite>, failing: set<string>, j: nat)
    requires j < |ws|
    requires var k := KeyOf(ws[j].category, ws[j].id);
      k !in failing && !Targets(ws[j + 1..], k)
    ensures var k := KeyOf(ws[j].category, ws[j].id);
      var r := KeysSet(c, ws, failing);
      if Truthy(ws[j].value) then k in r && r[k] == Stored(k, ws[j].value) else k !in r
    decreases |ws|
  {
    var k := KeyOf(ws[j].category, ws[j].id);
    if j == |ws| - 1 {
    } else {
      var init := ws[..|ws| - 1];
      assert init[j] == ws[j];
      assert !Targets(init[j + 1..], k);
      KeysSetLastWriter(c, init, failing, j);
      assert ws[j + 1..][|ws| - 2 - j] == ws[|ws| - 1];
    }
  }

  /** `set` then `get` of the same key gives back what was written, with the
      document id added, for every category but the decoded sync keys; a falsy
      value reads back as null. */
  lemma SetThenGet(c: Collection, category: string, id: string, v: Value, failing: set<string>, decode: Value -> Value)
    requires KeyOf(category, id) !in failing && category != SyncKeyCategory
    ensures var r := KeysGet(KeysSet(c, [KeyWrite(category, id, v)], failing), category, [id], failing, decode);
      id in r && r[id] == (if Truthy(v) then Obj(Stored(KeyOf(category, id), v)) else Null)
  {
    var ws := [KeyWrite(category, id, v)];
    assert ws[1..] == [];
    KeysSetLastWriter(c, ws, failing, 0);
  }

  /** An object without its own `_id` field reads back as itself plus `_id`. */
  lemma StoredObject(id: string, fields: map<string, Value>)
    requires "_id" !in fields
    ensures Stored(id, Obj(fields)).Keys == fields.Keys + {"_id"}
    ensures Stored(id, Obj(fields))["_id"] == Str(id)
    ensures forall f :: f in fields ==> Stored(id, Obj(fields))[f] == fields[f]
  {
  }

  /** A write replaces the whole document: what was stored before has no
      influence, and fields absent from the new data are gone. */
  lemma WriteReplaces(c1: Collection, c2: Collection, id: string, data: Value)
    requires !data.Undef?
    ensures WriteData(c1, id, data, true)[id] == WriteData(c2, id, data, true)[id]
    ensures id in c1 ==> forall f :: f in c1[id] && f != "_id" && f !in Spread(data) ==> f !in WriteData(c1, id, data, true)[id]
  {
  }

  // ---------------------------------------------------------------------------
  // Session credentials

  /** `saveCreds`: the session's credentials replace its document. */
  function SaveCreds(c: Collection, sessionId: string, creds: Value, ok: bool): (r: Collection)
    ensures ok && !creds.Undef? ==> sessionId in r
    ensures forall k :: k != sessionId ==> (k in r <==> k in c) && (k in c ==> r[k] == c[k])
  {
    WriteData(c, sessionId, creds, ok)
  }

  /** `clearCreds`: only the session's own document is deleted. */
  function ClearCreds(c: Collection, sessionId: string, ok: bool): (r: Collection)
    ensures ok ==> sessionId !in r
    ensures forall k :: k != sessionId ==> (k in r <==> k in c) && (k in c ==> r[k] == c[k])
  {
    RemoveData(c, sessionId, ok)
  }

  /** Clearing the credentials leaves every signal key where it was. */
  lemma ClearKeepsKeys(c: Collection, sessionId: string, ok: bool, category: string, id: string)
    requires KeyOf(category, id) != sessionId
    ensures var k := KeyOf(category, id);
      var r := ClearCreds(c, sessionId, ok);
      (k in r <==> k in c) && (k in c ==> r[k] == c[k])
  {
  }

  /** Saving and then loading gives back the saved credentials with the document
      id, not the fresh ones. */
  lemma SaveThenLoad(c: Collection, sessionId: string, creds: Value, initCreds: Value)
    requires !creds.Undef?
    ensures LoadCreds(SaveCreds(c, sessionId, creds, true), sessionId, true, initCreds) == Obj(Stored(sessionId, creds))
  {
  }

  /** After clearing, a load falls back to the fresh credentials. */
  lemma ClearThenLoad(c: Collection, sessionId: string, initCreds: Value)
    ensures LoadCreds(ClearCreds(c, sessionId, true), sessionId, true, initCreds) == initCreds
  {
  }

  // ---------------------------------------------------------------------------
  // The variant with a local backup and a shared, lazily created client

  /** `sessionId = 'default'`: the default applies when no id is passed. */
  function SessionIdOrDefault(arg: Option<string>): (r: string)
    ensures arg.Some? ==> r == arg.value
    ensures arg.None? ==> r == "default"
  {
    match arg
    case Some(id) => id
    case None => "default"
  }

  /** The backup file of a session. */
  function BackupFile(sessionId: string): string {
    "./session-backup-" + sessionId + ".json"
  }

  /** The collection together with the local backup files. */
  datatype BackedStore = BackedStore(coll: Collection, backups: map<string, Value>)

  /** `saveCreds` of the variant: write to the collection (a failure is swallowed),
      then write the backup file with the same credentials. */
  function SaveCredsWithBackup(s: BackedStore, sessionId: string, creds: Value, ok: bool): (r: BackedStore)
    ensures BackupFile(sessionId) in r.backups && r.backups[BackupFile(sessionId)] == creds
    ensures r.coll == SaveCreds(s.coll, sessionId, creds, ok)
    ensures forall f :: f != BackupFile(sessionId) ==> (f in r.backups <==> f in s.backups) && (f in s.backups ==> r.backups[f] == s.backups[f])
  {
    BackedStore(SaveCreds(s.coll, sessionId, creds, ok), s.backups[BackupFile(sessionId) := creds])
  }

  /** The backup is written even when the collection write fails, and then the
      collection is left as it was. */
  lemma BackupSurvivesStoreFailure(s: BackedStore, sessionId: string, creds: Value)
    ensures var r := SaveCredsWithBackup(s, sessionId, creds, false);
      r.coll == s.coll && r.backups[BackupFile(sessionId)] == creds
  {
  }

  /** The module-level client: created on first use and then reused, even when
      its first connection attempt failed. */
  datatype Mongo = Mongo(client: Option<nat>, created: nat)

  /** `connectMongo`: `newClient` names the client a call would create. */
  function ConnectMongo(m: Mongo, newClient: nat): (r: Mongo)
    ensures m.client.Some? ==> r == m
    ensures m.client.None? ==> r.client == Some(newClient) && r.created == m.created + 1
  {
    if m.client.None? then Mongo(Some(newClient), m.created + 1) else m
  }

  /** A sequence of calls, each offering a new client. */
  function ConnectAll(m: Mongo, clients: seq<nat>): Mongo
    decreases |clients|
  {
    if |clients| == 0 then m else ConnectAll(ConnectMongo(m, clients[0]), clients[1..])
  }

  /** However many times it is called, the client is created at most once, and
      every call after the first reuses the first call's client. */
  lemma {:induction false} ClientCreatedOnce(m: Mongo, clients: seq<nat>)
    requires m.client.Some? <==> m.created == 1
    requires m.created <= 1
    ensures var r := ConnectAll(m, clients);
      r.created <= 1 && (r.client.Some? <==> r.created == 1)
    ensures |clients| > 0 ==> ConnectAll(m, clients).created == 1
    ensures m.client.Some? ==> ConnectAll(m, clients) == m
    ensures m.client.None? && |clients| > 0 ==> ConnectAll(m, clients).client == Some(clients[0])
    decreases |clients|
  {
    if |clients| > 0 {
      ClientCreatedOnce(ConnectMongo(m, clients[0]), clients[1..]);
    }
  }
}
