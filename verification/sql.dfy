/** The parameterised statements the controllers assemble from request keys: a
    comma-separated list of placeholders or of `key = ?` assignments. The property
    that matters is that the number of `?` in the text lines up with the number of
    parameters sent along with it. */
module Sql {
  import opened Common

  /** A statement text and its positional parameters. */
  datatype Statement = Statement(sql: string, params: seq<Value>)

  /** The number of `?` in a string. */
  function Marks(s: string): nat {
    if |s| == 0 then 0 else Marks(s[..|s| - 1]) + (if s[|s| - 1] == '?' then 1 else 0)
  }

  /** The number of `?` across a list of strings. */
  function MarksIn(parts: seq<string>): nat {
    if |parts| == 0 then 0 else Marks(parts[0]) + MarksIn(parts[1..])
  }

  /** Keys that carry no `?` of their own add none to a list. */
  lemma {:induction false} NoMarksIn(keys: seq<string>)
    requires forall i :: 0 <= i < |keys| ==> Marks(keys[i]) == 0
    ensures MarksIn(keys) == 0
  {
    if |keys| > 0 {
      NoMarksIn(keys[1..]);
    }
  }

  /** Joining with a separator free of `?` adds no placeholder. */
  lemma {:induction false} MarksOfJoin(parts: seq<string>, sep: string)
    requires Marks(sep) == 0
    ensures Marks(Join(parts, sep)) == MarksIn(parts)
  {
    if |parts| == 1 {
      assert MarksIn(parts[1..]) == 0;
    } else if |parts| > 1 {
      MarksOfJoin(parts[1..], sep);
      Concat(parts[0] + sep, Join(parts[1..], sep));
      Concat(parts[0], sep);
    }
  }

  lemma {:induction false} MarksAppend(a: seq<string>, b: seq<string>)
    ensures MarksIn(a + b) == MarksIn(a) + MarksIn(b)
  {
    if |a| > 0 {
      assert (a + b)[1..] == a[1..] + b;
      MarksAppend(a[1..], b);
    } else {
      assert a + b == b;
    }
  }

  /** `keys.map(() => "?")`. */
  function Placeholders(n: nat): (ps: seq<string>)
    ensures |ps| == n && MarksIn(ps) == n
  {
    if n == 0 then [] else
      var ps := ["?"] + Placeholders(n - 1);
      assert ps[1..] == Placeholders(n - 1);
      ps
  }

  /** `keys.map(key => `${key} = ?`)`: one placeholder per key, plus any the keys
      themselves carry. */
  function Assignments(keys: seq<string>): (as_: seq<string>)
    ensures |as_| == |keys|
    ensures forall i :: 0 <= i < |keys| ==> as_[i] == keys[i] + " = ?"
    ensures MarksIn(as_) == |keys| + MarksIn(keys)
  {
    if |keys| == 0 then [] else
      var as_ := [keys[0] + " = ?"] + Assignments(keys[1..]);
      assert as_[1..] == Assignments(keys[1..]);
      Concat(keys[0], " = ?");
      AssignmentMark();
      as_
  }

  /** A text without a `?` character has no placeholder. */
  lemma {:induction false} Plain(s: string)
    requires forall i :: 0 <= i < |s| ==> s[i] != '?'
    ensures Marks(s) == 0
  {
    if |s| > 0 {
      Plain(s[..|s| - 1]);
    }
  }

  /** The placeholders of a concatenation are those of its two halves. */
  lemma {:induction false} Concat(a: string, b: string)
    ensures Marks(a + b) == Marks(a) + Marks(b)
  {
    if |b| > 0 {
      assert (a + b)[..|a + b| - 1] == a + b[..|b| - 1];
      Concat(a, b[..|b| - 1]);
    } else {
      assert a + b == a;
    }
  }

  /** An assignment's right-hand side is one placeholder. */
  lemma AssignmentMark()
    ensures Marks(" = ?") == 1
  {
    assert " = ?"[..3] == " = ";
    Plain(" = ");
  }

  /** Three placeholders in a list. */
  lemma ThreeMarks()
    ensures Marks("?, ?, ?") == 3
  {
    assert "?, ?, ?" == "?" + ", " + "?" + ", " + "?";
    CommaIsPlain();
    Concat("?" + ", " + "?" + ", ", "?");
    Concat("?" + ", " + "?", ", ");
    Concat("?" + ", ", "?");
    Concat("?", ", ");
  }

  /** The separator of the lists. */
  lemma CommaIsPlain()
    ensures Marks(", ") == 0
  {
    Plain(", ");
  }

  /** The filter shared by the updates and the delete: the row's id and its
      owner. */
  const WhereIdAndUser := " WHERE id = ? AND user_id = ?"

  lemma WhereIdAndUserMarks()
    ensures Marks(WhereIdAndUser) == 2
  {
    assert WhereIdAndUser == " WHERE id = " + "?" + " AND user_id = " + "?";
    Plain(" WHERE id = ");
    Plain(" AND user_id = ");
    Concat(" WHERE id = " + "?" + " AND user_id = ", "?");
    Concat(" WHERE id = " + "?", " AND user_id = ");
    Concat(" WHERE id = ", "?");
  }
}
