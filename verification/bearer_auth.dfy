/** `authenticateJWT`: the guard in front of the agent, account and Meta routes. It
    reads the `Authorization` header, expects `Bearer <token>`, and lets the request
    through only when the token verifies. Token verification is an input: it yields
    the decoded payload, or `None` when it throws. */
module BearerAuth {
  import opened Common

  const MissingToken := "Token n\U{00E3}o fornecido"
  const BadFormat := "Formato de token inv\U{00E1}lido"
  const BadToken := "Token inv\U{00E1}lido ou expirado"

  /** `next()` with `req.user` and `req.user_id` set, or a 401 with its message. */
  datatype AuthOutcome = Passed(user: Value, userId: Value) | Rejected(code: nat, message: string)

  /** `a ?? b`. */
  function Coalesce(a: Value, b: Value): (r: Value)
    ensures Nullish(a) ==> r == b
    ensures !Nullish(a) ==> r == a
  {
    if Nullish(a) then b else a
  }

  /** `decoded.user_id ?? decoded.id ?? null`; `None` when `decoded` is null or
      undefined, where the property read throws. */
  function UserIdOf(decoded: Value): (r: Option<Value>)
    ensures r.None? <==> Nullish(decoded)
    ensures r.Some? && !Nullish(Prop(decoded, "user_id").value) ==> r.value == Prop(decoded, "user_id").value
    ensures r.Some? && Nullish(Prop(decoded, "user_id").value) ==> r.value == Coalesce(Prop(decoded, "id").value, Null)
  {
    if Nullish(decoded) then None
    else Some(Coalesce(Coalesce(Prop(decoded, "user_id").value, Prop(decoded, "id").value), Null))
  }

  /** The middleware, for the two spellings of the header (Node lower-cases
      incoming header names, so `upper` is in practice always absent). */
  function Authenticate(lower: Option<string>, upper: Option<string>, verify: string -> Option<Value>)
    : (o: AuthOutcome)
    ensures var header := if lower.Some? && lower.value != "" then lower else upper;
      && (header.None? || header.value == "" <==> o == Rejected(401, MissingToken))
      && (header.Some? && header.value != "" ==>
          var parts := Split(header.value, ' ');
          && (|parts| != 2 || ToLower(parts[0]) != "bearer" <==> o == Rejected(401, BadFormat))
          && (|parts| == 2 && ToLower(parts[0]) == "bearer" ==>
              // the token is the second part; only a verified, readable payload passes
              && (o.Passed? <==> verify(parts[1]).Some? && !Nullish(verify(parts[1]).value))
              && (o.Passed? ==> o.user == verify(parts[1]).value && Some(o.userId) == UserIdOf(o.user))
              && (!o.Passed? ==> o == Rejected(401, BadToken))))
  {
    var header := if lower.Some? && lower.value != "" then lower else upper;
    if header.None? || header.value == "" then Rejected(401, MissingToken)
    else
      var parts := Split(header.value, ' ');
      if |parts| != 2 || ToLower(parts[0]) != "bearer" then Rejected(401, BadFormat)
      else
        match verify(parts[1])
        case None => Rejected(401, BadToken)
        case Some(decoded) =>
          match UserIdOf(decoded)
          case None => Rejected(401, BadToken)
          case Some(uid) => Passed(decoded, uid)
  }

  // ---------------------------------------------------------------------------
  // Properties

  predicate NoSpace(s: string) {
    Occurrences(s, ' ') == 0
  }

  /** Splitting `a + " " + b` on the space gives back `a` and `b` when neither holds
      a space. */
  lemma {:induction false} SplitAround(a: string, b: string)
    requires NoSpace(a) && NoSpace(b)
    ensures Split(a + " " + b, ' ') == [a, b]
  {
    var s := a + " " + b;
    var parts := Split(s, ' ');
    OccurrencesAppend(a + " ", b, ' ');
    OccurrencesAppend(a, " ", ' ');
    assert |parts| == 2;
    // both pieces are space-free, and they join back into `s`
    assert parts[1..] == [parts[1]];
    assert Join(parts, " ") == parts[0] + " " + Join(parts[1..], " ");
    assert parts[0] + " " + parts[1] == s;
    JoinedAtSpace(a, b, parts[0], parts[1]);
  }

  /** Two space-free pieces around one space are determined by the whole. */
  lemma {:induction false} JoinedAtSpace(a: string, b: string, c: string, d: string)
    requires NoSpace(a) && NoSpace(b) && NoSpace(c) && NoSpace(d)
    requires a + " " + b == c + " " + d
    ensures a == c && b == d
  {
    if |a| < |c| {
      assert (c + " " + d)[|a|] == c[|a|];
      SpaceFreeAt(c, |a|);
    } else if |c| < |a| {
      assert (a + " " + b)[|c|] == a[|c|];
      SpaceFreeAt(a, |c|);
    } else {
      assert a == (a + " " + b)[..|a|];
      assert c == (c + " " + d)[..|c|];
      assert b == (a + " " + b)[|a| + 1..];
      assert d == (c + " " + d)[|c| + 1..];
    }
  }

  /** No position of a space-free string holds a space. */
  lemma {:induction false} SpaceFreeAt(s: string, i: nat)
    requires NoSpace(s) && i < |s|
    ensures s[i] != ' '
  {
    if i > 0 {
      SpaceFreeAt(s[1..], i - 1);
    }
  }

  /** A well-formed header whose token verifies to an object lets the request
      through with that payload; the scheme is matched in any letter case. */
  lemma BearerTokenPasses(scheme: string, token: string, verify: string -> Option<Value>, claims: map<string, Value>)
    requires ToLower(scheme) == "bearer" && NoSpace(token)
    requires verify(token) == Some(Obj(claims))
    ensures Authenticate(Some(scheme + " " + token), None, verify).Passed?
    ensures Authenticate(Some(scheme + " " + token), None, verify).user == Obj(claims)
  {
    assert NoSpace(scheme) by {
      if !NoSpace(scheme) {
        var i := SpaceIndex(scheme);
      }
    }
    SplitAround(scheme, token);
  }

  /** A position holding a space in a string that has one. */
  lemma {:induction false} SpaceIndex(s: string) returns (i: nat)
    requires !NoSpace(s)
    ensures i < |s| && s[i] == ' '
  {
    if s[0] == ' ' {
      i := 0;
    } else {
      var j := SpaceIndex(s[1..]);
      i := j + 1;
    }
  }

  /** The token's `user_id` claim wins over its `id` claim; the login tokens carry
      only `id`, which is then used. */
  lemma UserIdChoice(claims: map<string, Value>)
    ensures "user_id" in claims && !Nullish(claims["user_id"]) ==> UserIdOf(Obj(claims)) == Some(claims["user_id"])
    ensures "user_id" !in claims && "id" in claims && !Nullish(claims["id"]) ==> UserIdOf(Obj(claims)) == Some(claims["id"])
    ensures "user_id" !in claims && "id" !in claims ==> UserIdOf(Obj(claims)) == Some(Null)
  {
  }

  /** A token with a space in it never gets as far as verification: the header
      then splits into more than two parts. */
  lemma {:induction false} SpacedTokenRejected(scheme: string, token: string, verify: string -> Option<Value>)
    requires !NoSpace(token)
    ensures Authenticate(Some(scheme + " " + token), None, verify) == Rejected(401, BadFormat)
  {
    var s := scheme + " " + token;
    OccurrencesAppend(scheme + " ", token, ' ');
    OccurrencesAppend(scheme, " ", ' ');
    assert |Split(s, ' ')| >= 3;
  }
}
