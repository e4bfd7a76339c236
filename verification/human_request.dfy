/** Detection of a request to talk to a human operator: eleven Portuguese phrase
    patterns tried anywhere in the lower-cased, trimmed message. The patterns use
    only literal text, two-letter character classes, `\s+` and optional groups, so
    they are represented by that small token language and matched by backtracking. */
module HumanRequest {
  import opened Common

  datatype Token =
    | Lit(w: string)              // the literal text `w`
    | Class(cs: string)           // one character out of `cs`
    | Spaces                      // `\s+`
    | Opt(body: seq<Token>)       // `(...)?`

  function TokenSize(t: Token): nat
    decreases t
  {
    match t
    case Opt(q) => 1 + Size(q)
    case _ => 1
  }

  function Size(p: seq<Token>): nat
    decreases p
  {
    if |p| == 0 then 0 else TokenSize(p[0]) + Size(p[1..])
  }

  lemma {:induction false} SizeConcat(a: seq<Token>, b: seq<Token>)
    ensures Size(a + b) == Size(a) + Size(b)
  {
    if |a| > 0 {
      assert (a + b)[1..] == a[1..] + b;
      SizeConcat(a[1..], b);
    } else {
      assert a + b == b;
    }
  }

  /** Does the pattern match some prefix of `s`? */
  predicate MatchPrefix(p: seq<Token>, s: string)
    decreases |s|, Size(p)
  {
    if |p| == 0 then true
    else match p[0]
      case Lit(w) =>
        assert Size(p) == 1 + Size(p[1..]);
        w <= s && MatchPrefix(p[1..], s[|w|..])
      case Class(cs) => |s| > 0 && s[0] in cs && MatchPrefix(p[1..], s[1..])
      case Spaces => |s| > 0 && IsSpace(s[0]) && (MatchPrefix(p[1..], s[1..]) || MatchPrefix(p, s[1..]))
      case Opt(q) =>
        SizeConcat(q, p[1..]);
        assert Size(p) == 1 + Size(q) + Size(p[1..]);
        MatchPrefix(q + p[1..], s) || MatchPrefix(p[1..], s)
  }

  /** `pattern.test(s)`: a match starting at any position. */
  predicate Search(p: seq<Token>, s: string)
    decreases |s|
  {
    MatchPrefix(p, s) || (|s| > 0 && Search(p, s[1..]))
  }

  /** Words separated by `\s+`. */
  function Phrase(ws: seq<string>): (p: seq<Token>)
    ensures |ws| > 0 ==> |p| == 2 * |ws| - 1
  {
    if |ws| == 0 then []
    else if |ws| == 1 then [Lit(ws[0])]
    else [Lit(ws[0]), Spaces] + Phrase(ws[1..])
  }

  /** The words of a phrase written with single spaces. */
  function JoinSpaced(ws: seq<string>): string {
    Join(ws, " ")
  }

  const PatternCount := 11

  /** `(um\s+)?` */
  const OptUm := Opt([Lit("um"), Spaces])

  /** The patterns of `detectHumanRequest`, in source order. */
  function Pattern(i: nat): seq<Token>
    requires i < PatternCount
  {
    match i
    case 0 => Phrase(["quero", "falar", "com"]) + [Spaces, OptUm, Lit("atendente")]
    case 1 => Phrase(["preciso", "falar", "com"]) + [Spaces, OptUm, Lit("atendente")]
    case 2 => [Lit("chamar"), Spaces, OptUm, Lit("atendente")]
    case 3 => Phrase(["transferir", "para"]) + [Spaces, OptUm, Lit("atendente")]
    case 4 => Phrase(["atendente", "humano"])
    case 5 => Phrase(["pessoa", "de", "verdade"])
    case 6 =>
      [Lit("n"), Class("\U{00E3}a"), Lit("o"), Spaces, Lit("quero"), Spaces,
       Opt([Lit("falar"), Spaces, Lit("com"), Spaces]), Lit("rob"), Class("\U{00F4}o")]
    case 7 => [Lit("quero"), Spaces, Opt([Lit("uma"), Spaces]), Lit("pessoa")]
    case 8 => Phrase(["falar", "com", "humano"])
    case 9 => Phrase(["me", "transfere"])
    case _ => Phrase(["transferir", "atendimento"])
  }

  /** `detectHumanRequest`: lower-case, trim, and try every pattern. The source's
      patterns are case-insensitive; after lower-casing, that only matters for
      letters the patterns already spell in lower case, so plain matching is the
      same test. */
  predicate DetectHumanRequest(text: string) {
    var normalized := Trim(ToLower(text));
    exists i :: 0 <= i < PatternCount && Search(Pattern(i), normalized)
  }

  // ---------------------------------------------------------------------------
  // What matches

  /** A word, one space and then whatever `rest` matches, match the word, `\s+`
      and `rest`. */
  lemma WordSpaceMatches(w: string, rest: seq<Token>, s: string)
    requires w <= s && |w| < |s| && s[|w|] == ' ' && MatchPrefix(rest, s[|w| + 1..])
    ensures MatchPrefix([Lit(w), Spaces] + rest, s)
  {
    var p := [Lit(w), Spaces] + rest;
    assert p[1..] == [Spaces] + rest;
    assert p[1..][1..] == rest;
    assert s[|w|..][1..] == s[|w| + 1..];
  }

  /** Words joined by single spaces, followed by whatever `rest` matches, match
      the phrase followed by `rest`. */
  lemma {:induction false} PhraseMatches(ws: seq<string>, rest: seq<Token>, s: string)
    requires |ws| > 0
    requires JoinSpaced(ws) <= s && MatchPrefix(rest, s[|JoinSpaced(ws)|..])
    ensures MatchPrefix(Phrase(ws) + rest, s)
    decreases |ws|
  {
    var w := ws[0];
    if |ws| == 1 {
      assert ([Lit(w)] + rest)[1..] == rest;
    } else {
      var tail := JoinSpaced(ws[1..]);
      assert JoinSpaced(ws) == w + " " + tail;
      assert s[|w| + 1..][|tail|..] == s[|JoinSpaced(ws)|..];
      PhraseMatches(ws[1..], rest, s[|w| + 1..]);
      WordSpaceMatches(w, Phrase(ws[1..]) + rest, s);
      assert [Lit(w), Spaces] + (Phrase(ws[1..]) + rest) == Phrase(ws) + rest;
    }
  }

  lemma {:induction false} SearchFinds(p: seq<Token>, s: string, i: nat)
    requires i <= |s| && MatchPrefix(p, s[i..])
    ensures Search(p, s)
    decreases i
  {
    if i > 0 {
      assert s[1..][i - 1..] == s[i..];
      SearchFinds(p, s[1..], i - 1);
    }
  }

  /** A phrase pattern is found wherever its words, joined by single spaces, occur. */
  lemma PhraseFound(ws: seq<string>, s: string)
    requires |ws| > 0 && Includes(s, JoinSpaced(ws))
    ensures Search(Phrase(ws), s)
  {
    var i := IncludesWitness(s, JoinSpaced(ws));
    assert Phrase(ws) + [] == Phrase(ws);
    PhraseMatches(ws, [], s[i..]);
    SearchFinds(Phrase(ws), s, i);
  }

  /** A phrase pattern detects any text whose lower-cased form contains the phrase
      with single spaces, provided the phrase has no white space at its ends. */
  lemma PhrasePatternDetected(text: string, i: nat, ws: seq<string>)
    requires i < PatternCount && |ws| > 0 && Pattern(i) == Phrase(ws)
    requires var needle := JoinSpaced(ws);
      |needle| > 0 && !IsSpace(needle[0]) && !IsSpace(needle[|needle| - 1])
    requires Includes(ToLower(text), JoinSpaced(ws))
    ensures DetectHumanRequest(text)
  {
    TrimKeepsInfix(ToLower(text), JoinSpaced(ws));
    PhraseFound(ws, Trim(ToLower(text)));
  }

  /** Any message whose lower-cased text contains "atendente humano" is a request
      for a human, whatever surrounds it. */
  lemma AtendenteHumanoDetected(text: string)
    requires Includes(ToLower(text), "atendente humano")
    ensures DetectHumanRequest(text)
  {
    var ws := ["atendente", "humano"];
    assert JoinSpaced(ws) == "atendente humano";
    PhrasePatternDetected(text, 4, ws);
  }

  /** "me transfere" anywhere in the message, in any letter case, asks for a human. */
  lemma MeTransfereDetected(text: string)
    requires Includes(ToLower(text), "me transfere")
    ensures DetectHumanRequest(text)
  {
    var ws := ["me", "transfere"];
    assert JoinSpaced(ws) == "me transfere";
    PhrasePatternDetected(text, 9, ws);
  }

  // ---------------------------------------------------------------------------
  // A lower bound on what can match

  function MinLen(p: seq<Token>): nat
    decreases p
  {
    if |p| == 0 then 0
    else match p[0]
      case Lit(w) => |w| + MinLen(p[1..])
      case Opt(_) => MinLen(p[1..])
      case _ => 1 + MinLen(p[1..])
  }

  lemma {:induction false} MinLenConcat(a: seq<Token>, b: seq<Token>)
    ensures MinLen(a + b) == MinLen(a) + MinLen(b)
  {
    if |a| > 0 {
      assert (a + b)[1..] == a[1..] + b;
      MinLenConcat(a[1..], b);
    } else {
      assert a + b == b;
    }
  }

  /** A text matched by a pattern is at least as long as the pattern's shortest
      match. */
  lemma {:induction false} MatchLength(p: seq<Token>, s: string)
    requires MatchPrefix(p, s)
    ensures |s| >= MinLen(p)
    decreases |s|, Size(p)
  {
    if |p| > 0 {
      match p[0]
      case Lit(w) =>
        assert Size(p) == 1 + Size(p[1..]);
        MatchLength(p[1..], s[|w|..]);
      case Class(_) =>
        MatchLength(p[1..], s[1..]);
      case Spaces =>
        if MatchPrefix(p[1..], s[1..]) {
          MatchLength(p[1..], s[1..]);
        } else {
          MatchLength(p, s[1..]);
        }
      case Opt(q) =>
        SizeConcat(q, p[1..]);
        assert Size(p) == 1 + Size(q) + Size(p[1..]);
        if MatchPrefix(q + p[1..], s) {
          MatchLength(q + p[1..], s);
          MinLenConcat(q, p[1..]);
        } else {
          MatchLength(p[1..], s);
        }
    }
  }

  lemma {:induction false} SearchLength(p: seq<Token>, s: string)
    requires Search(p, s)
    ensures |s| >= MinLen(p)
    decreases |s|
  {
    if MatchPrefix(p, s) {
      MatchLength(p, s);
    } else {
      SearchLength(p, s[1..]);
    }
  }

  /** A phrase needs at least its words joined by single spaces. */
  lemma {:induction false} PhraseMinLen(ws: seq<string>)
    ensures MinLen(Phrase(ws)) == |JoinSpaced(ws)|
  {
    if |ws| > 1 {
      PhraseMinLen(ws[1..]);
      var p := Phrase(ws);
      assert p[1..][1..] == Phrase(ws[1..]);
    }
  }

  /** The shortest text each pattern accepts; "me transfere" is the shortest. */
  lemma PatternMinLen(i: nat)
    requires i < PatternCount
    ensures MinLen(Pattern(i)) >= 12
  {
    if i < 4 {
      AtendentePatternMinLen(i);
    } else if i == 6 || i == 7 {
      RobotPersonPatternMinLen(i);
    } else {
      PhrasePatternMinLen(i);
    }
  }

  lemma AtendentePatternMinLen(i: nat)
    requires i < 4
    ensures MinLen(Pattern(i)) >= 12
  {
    var tail := [Spaces, OptUm, Lit("atendente")];
    match i
    case 0 =>
      PhraseMinLen(["quero", "falar", "com"]);
      MinLenConcat(Phrase(["quero", "falar", "com"]), tail);
    case 1 =>
      PhraseMinLen(["preciso", "falar", "com"]);
      MinLenConcat(Phrase(["preciso", "falar", "com"]), tail);
    case 2 =>
      var p := [Lit("chamar"), Spaces, OptUm, Lit("atendente")];
      var q := p[1..][1..];
      assert q[0] == OptUm && q[1..] == [Lit("atendente")];
      assert [Lit("atendente")][1..] == [];
      assert MinLen(q[1..]) == 9;
      assert MinLen(q) == 9;
    case _ =>
      PhraseMinLen(["transferir", "para"]);
      MinLenConcat(Phrase(["transferir", "para"]), tail);
  }

  lemma PhrasePatternMinLen(i: nat)
    requires 4 <= i < PatternCount && i != 6 && i != 7
    ensures MinLen(Pattern(i)) >= 12
  {
    match i
    case 4 => PhraseMinLen(["atendente", "humano"]);
    case 5 => PhraseMinLen(["pessoa", "de", "verdade"]);
    case 8 => PhraseMinLen(["falar", "com", "humano"]);
    case 9 => PhraseMinLen(["me", "transfere"]);
    case _ => PhraseMinLen(["transferir", "atendimento"]);
  }

  lemma RobotPersonPatternMinLen(i: nat)
    requires i == 6 || i == 7
    ensures MinLen(Pattern(i)) >= 12
  {
    if i == 6 {
      TailMinLen([Lit("n"), Class("\U{00E3}a"), Lit("o"), Spaces, Lit("quero"), Spaces,
       Opt([Lit("falar"), Spaces, Lit("com"), Spaces]), Lit("rob"), Class("\U{00F4}o")]);
    } else {
      TailMinLen([Lit("quero"), Spaces, Opt([Lit("uma"), Spaces]), Lit("pessoa")]);
    }
  }

  /** The shortest match of a pattern, one token at a time. */
  lemma {:induction false} TailMinLen(p: seq<Token>)
    ensures |p| > 0 ==> MinLen(p) == MinLen([p[0]]) + MinLen(p[1..])
  {
    if |p| > 0 {
      assert [p[0]][1..] == [];
    }
  }

  /** A message that trims to fewer than twelve characters is never a request for
      a human. */
  lemma ShortTextIsNotARequest(text: string)
    requires |Trim(ToLower(text))| < 12
    ensures !DetectHumanRequest(text)
  {
    var s := Trim(ToLower(text));
    if DetectHumanRequest(text) {
      var i :| 0 <= i < PatternCount && Search(Pattern(i), s);
      PatternMinLen(i);
      SearchLength(Pattern(i), s);
      assert false;
    }
  }
}
