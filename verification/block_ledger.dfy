/** The block ledger: a time-boxed deny list of (agent, counterparty) pairs kept in a
    SQL table, and the parser for the durations that size each block. The table is
    modelled as the sequence of its rows; `now` is the caller's clock reading. An
    operation that issues one statement takes `up`, whether the database answers
    it; one that issues two takes a `Db` saying which of them answer. Every helper
    turns a database error into a neutral answer and never raises, but a statement
    that already ran stays run. */
module BlockLedger {
  import opened Common

  // ---------------------------------------------------------------------------
  // Durations

  const HourMs: nat := 60 * 60 * 1000
  const DayMs: nat := 24 * HourMs
  const YearMs: nat := 365 * DayMs

  /** The units the duration grammar accepts, after lower-casing. */
  predicate IsUnitName(u: string) {
    u == "hr" || u == "h" || u == "d" || u == "a" || u == "ano" || u == "anos"
  }

  /** Milliseconds per unit, for a lower-cased unit name. */
  function UnitMs(u: string): (r: Option<nat>)
    ensures r.Some? <==> IsUnitName(u)
    ensures (u == "hr" || u == "h") ==> r == Some(3_600_000)
    ensures u == "d" ==> r == Some(86_400_000)
    ensures (u == "a" || u == "ano" || u == "anos") ==> r == Some(31_536_000_000)
  {
    if u == "hr" || u == "h" then Some(HourMs)
    else if u == "d" then Some(DayMs)
    else if u == "a" || u == "ano" || u == "anos" then Some(YearMs)
    else None
  }

  /** Length of the longest run of decimal digits at the start of `s`. */
  function DigitPrefix(s: string): (n: nat)
    ensures n <= |s| && AllDigits(s[..n])
    ensures n < |s| ==> !IsDigit(s[n])
  {
    if |s| > 0 && IsDigit(s[0]) then
      var n := 1 + DigitPrefix(s[1..]);
      assert s[..n] == [s[0]] + s[1..][..n - 1];
      n
    else 0
  }

  lemma {:induction false} DigitPrefixAll(d: string)
    requires AllDigits(d)
    ensures DigitPrefix(d) == |d|
  {
    if |d| > 0 {
      assert AllDigits(d[1..]);
      DigitPrefixAll(d[1..]);
    }
  }

  /** `parseDuration`: a decimal count followed by a unit, matched in full and
      case-insensitively, scaled to milliseconds; `None` for any other text. */
  function ParseDuration(d: string): (r: Option<nat>)
    ensures r.Some? ==> |d| >= 2 && IsDigit(d[0]) && !IsDigit(d[|d| - 1])
    ensures r.Some? ==> r.value % HourMs == 0
  {
    var n := DigitPrefix(d);
    if n == 0 then None
    else match UnitMs(ToLower(d[n..]))
      case None => None
      case Some(ms) =>
        assert ms % HourMs == 0;
        WholeHours(DecimalValue(d[..n]), ms);
        assert ToLower(d[n..])[|d| - n - 1] == LowerChar(d[|d| - 1]);
        Some(DecimalValue(d[..n]) * ms)
  }

  lemma WholeHours(c: nat, ms: nat)
    requires ms % HourMs == 0
    ensures (c * ms) % HourMs == 0
  {
    var k := ms / HourMs;
    assert c * ms == (c * k) * HourMs;
  }

  /** A count without a unit is no duration. */
  lemma CountIsNoDuration(d: string)
    requires AllDigits(d)
    ensures ParseDuration(d).None?
  {
    DigitPrefixAll(d);
    assert d[|d|..] == [];
    assert ToLower([]) == [];
  }

  /** The grammar `^(\d+)(hr|h|d|a|ano|anos)$` with the `i` flag, stated as a split
      of the text into its count and its unit. */
  ghost predicate DurationSyntax(d: string, count: string, unit: string) {
    && d == count + unit
    && |count| > 0
    && AllDigits(count)
    && IsUnitName(ToLower(unit))
  }

  /** Whatever `ParseDuration` accepts has the grammar's shape, and the value is the
      count times the unit's milliseconds. */
  lemma ParseDurationSound(d: string) returns (count: string, unit: string)
    requires ParseDuration(d).Some?
    ensures DurationSyntax(d, count, unit)
    ensures ParseDuration(d) == Some(DecimalValue(count) * UnitMs(ToLower(unit)).value)
  {
    var n := DigitPrefix(d);
    count, unit := d[..n], d[n..];
    assert d == count + unit;
  }

  /** Everything with the grammar's shape is accepted, with the exact value. */
  lemma ParseDurationComplete(d: string, count: string, unit: string)
    requires DurationSyntax(d, count, unit)
    ensures ParseDuration(d) == Some(DecimalValue(count) * UnitMs(ToLower(unit)).value)
  {
    var n := DigitPrefix(d);
    assert d[..|count|] == count;
    assert !IsDigit(unit[0]) by {
      assert ToLower(unit)[0] == LowerChar(unit[0]);
    }
    if n < |count| {
      assert false;
    }
    if n > |count| {
      assert false;
    }
    assert d[n..] == unit;
  }

  /** Rendering a count and appending a unit parses back to the count in
      milliseconds. */
  lemma ParseDurationRoundTrip(v: nat, unit: string)
    requires IsUnitName(ToLower(unit))
    ensures ParseDuration(NatToString(v) + unit) == Some(v * UnitMs(ToLower(unit)).value)
  {
    ParseDurationComplete(NatToString(v) + unit, NatToString(v), unit);
  }

  /** Worked values: hours, days and years scale exactly. */
  lemma ParseHours()
    ensures ParseDuration("2h") == Some(7_200_000)
  {
    ParseDurationComplete("2h", "2", "h");
  }

  lemma ParseDays()
    ensures ParseDuration("10d") == Some(864_000_000)
  {
    ParseDurationComplete("10d", "10", "d");
  }

  lemma ParseYears()
    ensures ParseDuration("1a") == Some(31_536_000_000)
  {
    ParseDurationComplete("1a", "1", "a");
  }

  /** The unit is matched case-insensitively. */
  lemma ParseDurationIgnoresCase()
    ensures ParseDuration("3ANOS") == Some(94_608_000_000)
  {
    assert ToLower("ANOS") == "anos";
    ParseDurationComplete("3ANOS", "3", "ANOS");
  }

  /** "0h" parses to zero, which `Block` then refuses; text without a count or
      without a unit is refused outright. */
  lemma ParseDurationRejects()
    ensures ParseDuration("0h") == Some(0)
    ensures ParseDuration("xyz") == None
    ensures ParseDuration("5") == None
  {
    ParseDurationComplete("0h", "0", "h");
    assert DigitPrefix("xyz") == 0;
    assert DigitPrefix("5") == 1;
    assert ToLower("5"[1..]) == "";
  }

  // ---------------------------------------------------------------------------
  // The table

  /** One row of `blocked_numbers`: the pair, the instant the block ends, who set it
      and when. */
  datatype Row = Row(agent: string, phone: string, until: int, blockedBy: string, createdAt: int)

  type Table = seq<Row>

  predicate IsPair(r: Row, agent: string, phone: string) {
    r.agent == agent && r.phone == phone
  }

  /** A row still in force at `now`: the comparison is strict. */
  predicate Live(r: Row, now: int) {
    r.until > now
  }

  function CountPair(t: Table, agent: string, phone: string): nat {
    if |t| == 0 then 0
    else (if IsPair(t[0], agent, phone) then 1 else 0) + CountPair(t[1..], agent, phone)
  }

  /** At most one row per (agent, counterparty). */
  ghost predicate UniquePairs(t: Table) {
    forall agent, phone :: CountPair(t, agent, phone) <= 1
  }

  /** `DELETE ... WHERE agent_id = ? AND phone_number = ?`. */
  function WithoutPair(t: Table, agent: string, phone: string): (t': Table)
    ensures forall r :: r in t' <==> r in t && !IsPair(r, agent, phone)
    ensures CountPair(t', agent, phone) == 0
    ensures forall a, p :: CountPair(t', a, p) <= CountPair(t, a, p)
    ensures |t'| == |t| - CountPair(t, agent, phone)
  {
    if |t| == 0 then []
    else if IsPair(t[0], agent, phone) then WithoutPair(t[1..], agent, phone)
    else [t[0]] + WithoutPair(t[1..], agent, phone)
  }

  /** `DELETE ... WHERE blocked_until <= now`: keeps exactly the live rows. */
  function Sweep(t: Table, now: int): (t': Table)
    ensures forall r :: r in t' <==> r in t && Live(r, now)
    ensures forall a, p :: CountPair(t', a, p) <= CountPair(t, a, p)
    ensures |t'| <= |t|
  {
    if |t| == 0 then []
    else if Live(t[0], now) then [t[0]] + Sweep(t[1..], now)
    else Sweep(t[1..], now)
  }

  predicate HasLivePair(t: Table, agent: string, phone: string, now: int) {
    exists r :: r in t && IsPair(r, agent, phone) && Live(r, now)
  }

  /** Sweeping at `now` does not change which pairs are live at `now`. */
  lemma SweepKeepsLive(t: Table, agent: string, phone: string, now: int)
    ensures HasLivePair(Sweep(t, now), agent, phone, now) == HasLivePair(t, agent, phone, now)
  {
  }

  // ---------------------------------------------------------------------------
  // Operations

  /** The database's answer to each of an operation's two statements, in the order
      they are issued. A failing statement ends the operation in its error handler,
      so the second is only reached when the first answers. */
  datatype Db = Db(first: bool, second: bool)

  datatype Blocked = Blocked(until: int, duration: string)

  datatype BlockOutcome = BlockOutcome(table: Table, result: Option<Blocked>)

  /** `blockNumber`: delete any row for the pair (the first statement), then, if the
      duration parses to a positive number of milliseconds, insert one row ending
      `now + ms` later (the second). The delete happens before the duration is
      checked, and it stays done when the insert fails. */
  function Block(t: Table, agent: string, phone: string, blockedBy: string, duration: string,
                 now: int, db: Db): (o: BlockOutcome)
    ensures !db.first ==> o == BlockOutcome(t, None)
    ensures o.result.Some? <==>
      db.first && db.second && ParseDuration(duration).Some? && ParseDuration(duration).value > 0
    ensures db.first ==> forall r :: r in o.table && !IsPair(r, agent, phone) <==> r in t && !IsPair(r, agent, phone)
    ensures db.first ==> CountPair(o.table, agent, phone) == (if o.result.Some? then 1 else 0)
    ensures o.result.Some? ==>
      && o.result.value.until == now + ParseDuration(duration).value
      && o.result.value.until > now
      && Row(agent, phone, o.result.value.until, blockedBy, now) in o.table
    ensures UniquePairs(t) ==> UniquePairs(o.table)
  {
    if !db.first then BlockOutcome(t, None)
    else
      var cleared := WithoutPair(t, agent, phone);
      var ms := ParseDuration(duration);
      if ms.None? || ms.value == 0 || !db.second then BlockOutcome(cleared, None)
      else
        var row := Row(agent, phone, now + ms.value, blockedBy, now);
        var t' := cleared + [row];
        CountPairAppend(cleared, row);
        BlockOutcome(t', Some(Blocked(now + ms.value, duration)))
  }

  /** A block with a positive duration of `ms` stores the row ending `ms` from now. */
  lemma BlockStoresRow(t: Table, agent: string, phone: string, blockedBy: string, duration: string, now: int, ms: nat)
    requires ParseDuration(duration) == Some(ms) && ms > 0
    ensures Row(agent, phone, now + ms, blockedBy, now) in Block(t, agent, phone, blockedBy, duration, now, Db(true, true)).table
  {
  }

  /** A block whose duration does not parse, or whose insert fails, only deletes:
      the pair is left without a live block. */
  lemma UnparsedBlockClears(t: Table, agent: string, phone: string, blockedBy: string, duration: string, now: int, db: Db)
    requires db.first && (ParseDuration(duration).None? || !db.second)
    ensures !HasLivePair(Block(t, agent, phone, blockedBy, duration, now, db).table, agent, phone, now)
  {
    var o := Block(t, agent, phone, blockedBy, duration, now, db);
    assert CountPair(o.table, agent, phone) == 0;
  }

  lemma CountPairAppend(t: Table, row: Row)
    ensures forall a, p :: CountPair(t + [row], a, p) == CountPair(t, a, p) + (if IsPair(row, a, p) then 1 else 0)
  {
    forall a, p
      ensures CountPair(t + [row], a, p) == CountPair(t, a, p) + (if IsPair(row, a, p) then 1 else 0)
    {
      CountPairAppendOne(t, row, a, p);
    }
  }

  lemma {:induction false} CountPairAppendOne(t: Table, row: Row, a: string, p: string)
    ensures CountPair(t + [row], a, p) == CountPair(t, a, p) + (if IsPair(row, a, p) then 1 else 0)
  {
    if |t| > 0 {
      assert (t + [row])[1..] == t[1..] + [row];
      CountPairAppendOne(t[1..], row, a, p);
    } else {
      assert t + [row] == [row];
    }
  }

  datatype UnblockOutcome = UnblockOutcome(table: Table, removed: bool)

  /** `unblockNumber`: delete the pair's rows; true iff at least one was there. */
  function Unblock(t: Table, agent: string, phone: string, up: bool): (o: UnblockOutcome)
    ensures o.removed <==> up && exists r :: r in t && IsPair(r, agent, phone)
    ensures !up ==> o.table == t
    ensures up ==> forall r :: r in o.table <==> r in t && !IsPair(r, agent, phone)
    ensures up ==> CountPair(o.table, agent, phone) == 0
    ensures UniquePairs(t) ==> UniquePairs(o.table)
  {
    if !up then UnblockOutcome(t, false)
    else
      var t' := WithoutPair(t, agent, phone);
      assert (exists r :: r in t && IsPair(r, agent, phone)) <==> |t'| < |t| by {
        if |t'| < |t| {
          CountPairWitness(t, agent, phone);
        }
        if exists r :: r in t && IsPair(r, agent, phone) {
          var r :| r in t && IsPair(r, agent, phone);
          CountPairMember(t, r);
        }
      }
      UnblockOutcome(t', |t'| < |t|)
  }

  lemma {:induction false} CountPairWitness(t: Table, agent: string, phone: string)
    requires CountPair(t, agent, phone) > 0
    ensures exists r :: r in t && IsPair(r, agent, phone)
  {
    if !IsPair(t[0], agent, phone) {
      CountPairWitness(t[1..], agent, phone);
      var r :| r in t[1..] && IsPair(r, agent, phone);
      assert r in t;
    }
  }

  lemma {:induction false} CountPairMember(t: Table, r: Row)
    requires r in t
    ensures CountPair(t, r.agent, r.phone) > 0
  {
    if t[0] != r {
      CountPairMember(t[1..], r);
    }
  }

  datatype CheckOutcome = CheckOutcome(table: Table, blocked: bool)

  /** `isNumberBlocked`: is there a row for the pair ending strictly after `now`
      (the first statement)? Afterwards every expired row, of any agent, is deleted
      (the second); when that delete fails the answer found is dropped and the
      caller is told "not blocked". */
  function IsBlocked(t: Table, agent: string, phone: string, now: int, db: Db): (o: CheckOutcome)
    ensures o.blocked <==> db.first && db.second && HasLivePair(t, agent, phone, now)
    ensures !(db.first && db.second) ==> o.table == t
    ensures db.first && db.second ==> forall r :: r in o.table <==> r in t && Live(r, now)
    ensures UniquePairs(t) ==> UniquePairs(o.table)
  {
    if !db.first || !db.second then CheckOutcome(t, false)
    else CheckOutcome(Sweep(t, now), HasLivePair(t, agent, phone, now))
  }

  /** The first live row for the pair, in table order. */
  function FirstLive(t: Table, agent: string, phone: string, now: int): (r: Option<Row>)
    ensures r.Some? <==> HasLivePair(t, agent, phone, now)
    ensures r.Some? ==> r.value in t && IsPair(r.value, agent, phone) && Live(r.value, now)
  {
    if |t| == 0 then None
    else if IsPair(t[0], agent, phone) && Live(t[0], now) then Some(t[0])
    else
      var r := FirstLive(t[1..], agent, phone, now);
      assert HasLivePair(t, agent, phone, now) ==> HasLivePair(t[1..], agent, phone, now) by {
        if HasLivePair(t, agent, phone, now) {
          var x :| x in t && IsPair(x, agent, phone) && Live(x, now);
          assert x != t[0];
          assert x in t[1..];
        }
      }
      r
  }

  /** `getBlockInfo`: the pair's live row if there is one. It deletes nothing. */
  function GetBlockInfo(t: Table, agent: string, phone: string, now: int, up: bool): (r: Option<Row>)
    ensures r.Some? <==> up && HasLivePair(t, agent, phone, now)
    ensures r.Some? ==> r.value in t && IsPair(r.value, agent, phone) && r.value.until > now
  {
    if up then FirstLive(t, agent, phone, now) else None
  }

  /** In a table with one row per pair, the live row found is the pair's only row. */
  lemma GetBlockInfoUnique(t: Table, agent: string, phone: string, now: int, r: Row)
    requires UniquePairs(t)
    requires r in t && IsPair(r, agent, phone) && Live(r, now)
    ensures GetBlockInfo(t, agent, phone, now, true) == Some(r)
  {
    var f := GetBlockInfo(t, agent, phone, now, true).value;
    if f != r {
      TwoRowsCountTwo(t, f, r);
      assert false;
    }
  }

  lemma {:induction false} TwoRowsCountTwo(t: Table, x: Row, y: Row)
    requires x in t && y in t && x != y && x.agent == y.agent && x.phone == y.phone
    ensures CountPair(t, x.agent, x.phone) >= 2
  {
    if t[0] == x {
      assert y in t[1..];
      CountPairMember(t[1..], y);
    } else if t[0] == y {
      assert x in t[1..];
      CountPairMember(t[1..], x);
    } else {
      assert x in t[1..] && y in t[1..];
      TwoRowsCountTwo(t[1..], x, y);
    }
  }

  // ---------------------------------------------------------------------------
  // Listing

  /** The agent's live rows, in table order. */
  function LiveFor(t: Table, agent: string, now: int): (rs: seq<Row>)
    ensures forall r :: r in rs <==> r in t && r.agent == agent && Live(r, now)
  {
    if |t| == 0 then []
    else if t[0].agent == agent && Live(t[0], now) then [t[0]] + LiveFor(t[1..], agent, now)
    else LiveFor(t[1..], agent, now)
  }

  predicate NewestFirst(rs: seq<Row>) {
    forall i, j :: 0 <= i < j < |rs| ==> rs[i].createdAt >= rs[j].createdAt
  }

  lemma ConsNewestFirst(x: Row, rs: seq<Row>)
    requires NewestFirst(rs)
    requires forall y :: y in rs ==> y.createdAt <= x.createdAt
    ensures NewestFirst([x] + rs)
  {
    var out := [x] + rs;
    forall i, j | 0 <= i < j < |out|
      ensures out[i].createdAt >= out[j].createdAt
    {
      assert out[j] == rs[j - 1];
      if i > 0 {
        assert out[i] == rs[i - 1];
      }
    }
  }

  function InsertByAt(r: Row, rs: seq<Row>): (out: seq<Row>)
    requires NewestFirst(rs)
    ensures NewestFirst(out)
    ensures forall x :: x in out <==> x == r || x in rs
    ensures multiset(out) == multiset(rs) + multiset{r}
  {
    if |rs| == 0 || r.createdAt >= rs[0].createdAt then
      assert forall y :: y in rs ==> y.createdAt <= r.createdAt;
      ConsNewestFirst(r, rs);
      [r] + rs
    else
      var tail := InsertByAt(r, rs[1..]);
      assert rs == [rs[0]] + rs[1..];
      ConsNewestFirst(rs[0], tail);
      [rs[0]] + tail
  }

  /** `ORDER BY blocked_at DESC`. */
  function SortNewestFirst(rs: seq<Row>): (out: seq<Row>)
    ensures NewestFirst(out)
    ensures multiset(out) == multiset(rs)
  {
    if |rs| == 0 then []
    else
      assert rs == [rs[0]] + rs[1..];
      InsertByAt(rs[0], SortNewestFirst(rs[1..]))
  }

  datatype ListOutcome = ListOutcome(table: Table, rows: seq<Row>)

  /** `listBlockedNumbers`: sweep expired rows (the first statement), then return
      the agent's live rows, newest first (the second). A database error yields an
      empty list; a sweep that ran stays run. */
  function ListBlocked(t: Table, agent: string, now: int, db: Db): (o: ListOutcome)
    ensures !db.first ==> o == ListOutcome(t, [])
    ensures db.first ==> forall r :: r in o.table <==> r in t && Live(r, now)
    ensures !db.second ==> o.rows == []
    ensures db.first && db.second ==> multiset(o.rows) == multiset(LiveFor(t, agent, now))
    ensures forall r :: r in o.rows ==> r in t && r.agent == agent && r.until > now
    ensures NewestFirst(o.rows)
  {
    if !db.first then ListOutcome(t, [])
    else if !db.second then ListOutcome(Sweep(t, now), [])
    else
      ListedRows(t, agent, now);
      ListOutcome(Sweep(t, now), SortNewestFirst(LiveFor(Sweep(t, now), agent, now)))
  }

  /** The rows the query returns after the sweep are the agent's live rows of the
      table before it. */
  lemma ListedRows(t: Table, agent: string, now: int)
    ensures var rows := SortNewestFirst(LiveFor(Sweep(t, now), agent, now));
      && multiset(rows) == multiset(LiveFor(t, agent, now))
      && (forall r :: r in rows ==> r in t && r.agent == agent && r.until > now)
  {
    var rows := SortNewestFirst(LiveFor(Sweep(t, now), agent, now));
    assert forall r :: r in rows ==> r in multiset(LiveFor(Sweep(t, now), agent, now));
    LiveForSweep(t, agent, now);
  }

  lemma {:induction false} LiveForSweep(t: Table, agent: string, now: int)
    ensures LiveFor(Sweep(t, now), agent, now) == LiveFor(t, agent, now)
  {
    if |t| > 0 {
      LiveForSweep(t[1..], agent, now);
      if Live(t[0], now) {
        assert Sweep(t, now)[1..] == Sweep(t[1..], now);
      }
    }
  }

  // ---------------------------------------------------------------------------
  // Properties across calls

  /** A successful block makes the pair blocked exactly until its end instant:
      checked at any later `now'` it is blocked iff `now' < now + ms`. */
  lemma BlockThenCheck(t: Table, agent: string, phone: string, blockedBy: string, duration: string,
                       now: int, now': int)
    requires Block(t, agent, phone, blockedBy, duration, now, Db(true, true)).result.Some?
    ensures var o := Block(t, agent, phone, blockedBy, duration, now, Db(true, true));
      IsBlocked(o.table, agent, phone, now', Db(true, true)).blocked <==> now' < now + ParseDuration(duration).value
  {
    var o := Block(t, agent, phone, blockedBy, duration, now, Db(true, true));
    var until := o.result.value.until;
    var row := Row(agent, phone, until, blockedBy, now);
    if HasLivePair(o.table, agent, phone, now') {
      var x :| x in o.table && IsPair(x, agent, phone) && Live(x, now');
      if x != row {
        TwoRowsCountTwo(o.table, x, row);
        assert false;
      }
    }
  }

  /** A second check at the same instant gives the same answer as the first: the
      sweep a check performs never changes a check's answer. */
  lemma CheckIsStable(t: Table, agent: string, phone: string, now: int)
    ensures var o := IsBlocked(t, agent, phone, now, Db(true, true));
      IsBlocked(o.table, agent, phone, now, Db(true, true)).blocked == o.blocked
  {
    SweepKeepsLive(t, agent, phone, now);
  }

  /** Block then unblock: the unblock reports a removal and the pair is free. */
  lemma BlockThenUnblock(t: Table, agent: string, phone: string, blockedBy: string, duration: string,
                         now: int, now': int)
    requires Block(t, agent, phone, blockedBy, duration, now, Db(true, true)).result.Some?
    ensures var o := Block(t, agent, phone, blockedBy, duration, now, Db(true, true));
      var u := Unblock(o.table, agent, phone, true);
      u.removed && !IsBlocked(u.table, agent, phone, now', Db(true, true)).blocked
  {
  }

  /** An owner command with a malformed duration still removes the pair's block:
      the delete runs before the duration is checked, whatever the second
      statement would have done. */
  lemma InvalidDurationUnblocks(t: Table, agent: string, phone: string, blockedBy: string,
                                duration: string, now: int, now': int, db: Db)
    requires ParseDuration(duration).None? && db.first
    ensures var o := Block(t, agent, phone, blockedBy, duration, now, db);
      o.result.None? && !IsBlocked(o.table, agent, phone, now', Db(true, true)).blocked
  {
  }

  /** A check whose sweep fails reports "not blocked" even for a pair with a live
      row, and leaves the table as it was. */
  lemma FailedSweepHidesBlock(t: Table, agent: string, phone: string, now: int, r: Row)
    requires r in t && IsPair(r, agent, phone) && Live(r, now)
    ensures IsBlocked(t, agent, phone, now, Db(true, false)) == CheckOutcome(t, false)
  {
  }

  /** A listing whose query fails after its sweep returns nothing, yet the expired
      rows are gone: a later listing with the database answering returns the same
      rows as one made before. */
  lemma FailedListStillSweeps(t: Table, agent: string, now: int)
    ensures var o := ListBlocked(t, agent, now, Db(true, false));
      o.rows == []
      && multiset(ListBlocked(o.table, agent, now, Db(true, true)).rows) == multiset(LiveFor(t, agent, now))
  {
    LiveForSweep(t, agent, now);
  }
}
