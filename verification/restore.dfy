/** `restaurarConexoes`, run once at start-up: it lists the agents to restore,
    derives a readable id for each, and starts them one at a time with a ten-second
    pause after each start. The agent lookup, `JSON.stringify` and what each start
    meets are inputs; the start itself is the connection model's `Start`. */
module Restore {
  import opened Common
  import Connection

  const PauseMs := 10000

  /** The fields tried in order for an agent's id. */
  const IdFields: seq<string> := ["id", "_id", "agentId", "sessionId", "name"]

  /** `a.f1 ?? a.f2 ?? ...`: the first of the fields that is neither null nor
      undefined. */
  function FirstPresent(a: Value, fields: seq<string>): (r: Option<Value>)
    requires !Nullish(a)
    ensures r.Some? ==> !Nullish(r.value)
    ensures r.Some? <==> exists j :: 0 <= j < |fields| && !Nullish(Prop(a, fields[j]).value)
    ensures r.Some? ==> exists j :: (0 <= j < |fields| && r.value == Prop(a, fields[j]).value
      && forall i :: 0 <= i < j ==> Nullish(Prop(a, fields[i]).value))
  {
    if |fields| == 0 then None
    else
      var v := Prop(a, fields[0]).value;
      if !Nullish(v) then Some(v)
      else
        var r := FirstPresent(a, fields[1..]);
        assert forall j :: 1 <= j < |fields| ==> fields[j] == fields[1..][j - 1];
        if r.Some? then
          var j :| 0 <= j < |fields[1..]| && r.value == Prop(a, fields[1..][j]).value
            && forall i :: 0 <= i < j ==> Nullish(Prop(a, fields[1..][i]).value);
          assert r.value == Prop(a, fields[j + 1]).value;
          assert forall i :: 0 <= i < j + 1 ==> Nullish(Prop(a, fields[i]).value) by {
            forall i | 0 <= i < j + 1
              ensures Nullish(Prop(a, fields[i]).value)
            {
              if i > 0 {
                assert fields[i] == fields[1..][i - 1];
              }
            }
          }
          r
        else r
  }

  /** The readable id of one agent entry: `String(a)` for a falsy entry, else the
      first present id field, else the entry's JSON text. */
  function AgentId(a: Value, stringify: Value -> string): (id: Value)
    ensures !Truthy(a) ==> id == Str(JsString(a))
    ensures Truthy(a) && Prop(a, "id").value != Undef && Prop(a, "id").value != Null ==> id == Prop(a, "id").value
    ensures Truthy(a) && FirstPresent(a, IdFields).None? ==> id == Str(stringify(a))
  {
    if !Truthy(a) then Str(JsString(a))
    else match FirstPresent(a, IdFields)
      case Some(v) => v
      case None => Str(stringify(a))
  }

  /** The list of ids, one per agent, in the agents' order. */
  function AgentIds(agents: seq<Value>, stringify: Value -> string): (ids: seq<Value>)
    ensures |ids| == |agents|
    ensures forall i :: 0 <= i < |agents| ==> ids[i] == AgentId(agents[i], stringify)
  {
    seq(|agents|, i requires 0 <= i < |agents| => AgentId(agents[i], stringify))
  }

  /** What one start meets: the clock, the environment of `startWhatsApp`, and
      whether the call is rejected (an error escaping it). */
  datatype StartInput = StartInput(now: int, env: Connection.StartEnv, rejected: bool)

  /** The observable steps of the loop: a start, with the id passed to it as it
      is, and a pause. */
  datatype Step = Started(id: Value) | Paused(ms: nat)

  /** One agent's steps: its start, then the pause, which a rejected start
      skips. */
  function AgentSteps(id: Value, rejected: bool): (st: seq<Step>)
    ensures |st| == (if rejected then 1 else 2) && st[0] == Started(id)
  {
    if rejected then [Started(id)] else [Started(id), Paused(PauseMs)]
  }

  /** The loop from agent `i` on. */
  function Loop(reg: Connection.Registry, keys: seq<Value>, i: nat, inputs: nat -> StartInput)
    : (r: (Connection.Registry, seq<Step>))
    requires i <= |keys|
    decreases |keys| - i
  {
    if i == |keys| then (reg, [])
    else
      var inp := inputs(i);
      var o := Connection.Start(reg, keys[i], true, 0, inp.now, inp.env);
      var rest := Loop(o.reg, keys, i + 1, inputs);
      (rest.0, AgentSteps(keys[i], inp.rejected) + rest.1)
  }

  /** `restaurarConexoes`: `fetched` is what the agent lookup returned, `None`
      when it threw. A null or undefined list is empty; anything else that is not
      a list fails on `.map` and restores nothing. */
  function RestoreAll(reg: Connection.Registry, fetched: Option<Value>, stringify: Value -> string,
                      inputs: nat -> StartInput): (r: (Connection.Registry, seq<Step>))
    ensures fetched.None? || Nullish(fetched.value) || !fetched.value.Arr? ==> r == (reg, [])
    // a list starts every agent once, in order, under its id as derived, and
    // pauses after each start that is not rejected
    ensures fetched.Some? && fetched.value.Arr? ==>
      var agents := fetched.value.items;
      StartedKeys(r.1) == AgentIds(agents, stringify)
      && PauseCount(r.1) == |agents| - Rejections(0, |agents|, inputs)
  {
    match fetched
    case None => (reg, [])
    case Some(v) =>
      var agents := if Nullish(v) then Arr([]) else v;
      if !agents.Arr? then (reg, [])
      else
        var ids := AgentIds(agents.items, stringify);
        if |ids| > 0 then
          LoopStartsEachInOrder(reg, ids, 0, inputs);
          assert ids[0..] == ids;
          Loop(reg, ids, 0, inputs)
        else (reg, [])
  }

  // ---------------------------------------------------------------------------
  // Properties of the loop

  function StartedKeys(steps: seq<Step>): (ks: seq<Value>)
  {
    if |steps| == 0 then []
    else (if steps[0].Started? then [steps[0].id] else []) + StartedKeys(steps[1..])
  }

  function PauseCount(steps: seq<Step>): nat {
    if |steps| == 0 then 0 else (if steps[0].Paused? then 1 else 0) + PauseCount(steps[1..])
  }

  function Rejections(i: nat, n: nat, inputs: nat -> StartInput): nat
    decreases n - i
  {
    if i >= n then 0 else (if inputs(i).rejected then 1 else 0) + Rejections(i + 1, n, inputs)
  }

  lemma {:induction false} StartedKeysAppend(a: seq<Step>, b: seq<Step>)
    ensures StartedKeys(a + b) == StartedKeys(a) + StartedKeys(b)
    ensures PauseCount(a + b) == PauseCount(a) + PauseCount(b)
  {
    if |a| > 0 {
      assert (a + b)[1..] == a[1..] + b;
      StartedKeysAppend(a[1..], b);
    } else {
      assert a + b == b;
    }
  }

  /** One agent's steps start it once and pause unless it was rejected. */
  lemma AgentStepsCounts(id: Value, rejected: bool)
    ensures StartedKeys(AgentSteps(id, rejected)) == [id]
    ensures PauseCount(AgentSteps(id, rejected)) == if rejected then 0 else 1
  {
    var head := AgentSteps(id, rejected);
    if !rejected {
      var tail := head[1..];
      assert tail == [Paused(PauseMs)] && tail[1..] == [];
      assert PauseCount(tail) == 1 + PauseCount(tail[1..]);
      assert StartedKeys(tail) == [] + StartedKeys(tail[1..]);
    } else {
      assert head[1..] == [];
    }
  }

  /** Every agent is started exactly once, in order, and every start that is not
      rejected is followed by its ten-second pause. */
  lemma {:induction false} LoopStartsEachInOrder(reg: Connection.Registry, keys: seq<Value>, i: nat, inputs: nat -> StartInput)
    requires i <= |keys|
    ensures StartedKeys(Loop(reg, keys, i, inputs).1) == keys[i..]
    ensures PauseCount(Loop(reg, keys, i, inputs).1) == (|keys| - i) - Rejections(i, |keys|, inputs)
    decreases |keys| - i
  {
    if i < |keys| {
      var inp := inputs(i);
      var o := Connection.Start(reg, keys[i], true, 0, inp.now, inp.env);
      LoopStartsEachInOrder(o.reg, keys, i + 1, inputs);
      var head := AgentSteps(keys[i], inp.rejected);
      var tail := Loop(o.reg, keys, i + 1, inputs).1;
      assert Loop(reg, keys, i, inputs).1 == head + tail;
      StartedKeysAppend(head, tail);
      AgentStepsCounts(keys[i], inp.rejected);
      assert keys[i..] == [keys[i]] + keys[i + 1..];
    }
  }

  /** Each pause directly follows a start of the same agent: the steps alternate
      start, pause, except that a rejected start has none. */
  lemma {:induction false} PausesFollowStarts(reg: Connection.Registry, keys: seq<Value>, i: nat, inputs: nat -> StartInput)
    requires i <= |keys|
    ensures var st := Loop(reg, keys, i, inputs).1;
      forall j :: 0 <= j < |st| && st[j].Paused? ==> j > 0 && st[j - 1].Started? && st[j].ms == PauseMs
    decreases |keys| - i
  {
    if i < |keys| {
      var inp := inputs(i);
      var o := Connection.Start(reg, keys[i], true, 0, inp.now, inp.env);
      PausesFollowStarts(o.reg, keys, i + 1, inputs);
      var head := AgentSteps(keys[i], inp.rejected);
      var tail := Loop(o.reg, keys, i + 1, inputs).1;
      var st := head + tail;
      assert Loop(reg, keys, i, inputs).1 == st;
      if i + 1 < |keys| {
        LoopBeginsWithStart(o.reg, keys, i + 1, inputs);
      }
      forall j | 0 <= j < |st| && st[j].Paused?
        ensures j > 0 && st[j - 1].Started? && st[j].ms == PauseMs
      {
        if j < |head| {
          assert st[j] == head[j];
          assert st[j - 1] == head[j - 1];
        } else {
          assert st[j] == tail[j - |head|];
          if j > |head| {
            assert st[j - 1] == tail[j - 1 - |head|];
          }
        }
      }
    }
  }

  /** The first step of any non-empty loop is a start. */
  lemma LoopBeginsWithStart(reg: Connection.Registry, keys: seq<Value>, i: nat, inputs: nat -> StartInput)
    requires i < |keys|
    ensures |Loop(reg, keys, i, inputs).1| > 0 && Loop(reg, keys, i, inputs).1[0].Started?
  {
  }

  /** The agent rows the database gives, `{ id: n }`, are started under the
      number itself: its connect lock is keyed by the number, its socket and
      status by the number's decimal form. */
  lemma DatabaseRowsUseTheirIds(n: nat, stringify: Value -> string)
    ensures AgentId(Obj(map["id" := Num(n)]), stringify) == Num(n)
    ensures JsString(AgentId(Obj(map["id" := Num(n)]), stringify)) == NatToString(n)
  {
    var a := Obj(map["id" := Num(n)]);
    assert Prop(a, "id").value == Num(n);
    JsStringPrimitives("", n);
  }

  /** A lookup that yields null restores nothing. */
  lemma NullListRestoresNothing(reg: Connection.Registry, stringify: Value -> string, inputs: nat -> StartInput)
    ensures RestoreAll(reg, Some(Null), stringify, inputs) == (reg, [])
  {
  }
}
