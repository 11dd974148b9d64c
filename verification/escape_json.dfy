/** Escaping a string for a JSON log line by five passes over the whole string. */
module EscapeJSON {
  /** Every occurrence of one character, replaced from left to right. */
  function ReplaceAll(s: string, c: char, repl: string): string {
    if s == "" then "" else (if s[0] == c then repl else [s[0]]) + ReplaceAll(s[1..], c, repl)
  }

  function Escape(s: string): string {
    var s1 := ReplaceAll(s, '\\', "\\\\");
    var s2 := ReplaceAll(s1, '\"', "\\\"");
    var s3 := ReplaceAll(s2, '\n', "\\n");
    var s4 := ReplaceAll(s3, '\r', "\\r");
    ReplaceAll(s4, '\t', "\\t")
  }

  // ---- five passes are one substitution ----

  function EscapeChar(c: char): string {
    match c
    case '\\' => "\\\\"
    case '\"' => "\\\""
    case '\n' => "\\n"
    case '\r' => "\\r"
    case '\t' => "\\t"
    case _ => [c]
  }

  function Substitute(s: string): string {
    if s == "" then "" else EscapeChar(s[0]) + Substitute(s[1..])
  }

  lemma {:induction false} ReplaceAllConcat(s: string, t: string, c: char, repl: string)
    ensures ReplaceAll(s + t, c, repl) == ReplaceAll(s, c, repl) + ReplaceAll(t, c, repl)
  {
    if s == "" {
      assert s + t == t;
    } else {
      assert (s + t)[1..] == s[1..] + t;
      ReplaceAllConcat(s[1..], t, c, repl);
    }
  }

  lemma ReplaceInOne(a: char, c: char, repl: string)
    ensures ReplaceAll([a], c, repl) == if a == c then repl else [a]
  {
    assert [a][1..] == "";
    assert ReplaceAll("", c, repl) == "";
  }

  lemma ReplaceInTwo(a: char, b: char, c: char, repl: string)
    requires a != c && b != c
    ensures ReplaceAll([a, b], c, repl) == [a, b]
  {
    assert [a, b] == [a] + [b];
    ReplaceAllConcat([a], [b], c, repl);
    ReplaceInOne(a, c, repl);
    ReplaceInOne(b, c, repl);
  }

  lemma EscapeConcat(s: string, t: string)
    ensures Escape(s + t) == Escape(s) + Escape(t)
  {
    ReplaceAllConcat(s, t, '\\', "\\\\");
    var s1, t1 := ReplaceAll(s, '\\', "\\\\"), ReplaceAll(t, '\\', "\\\\");
    ReplaceAllConcat(s1, t1, '\"', "\\\"");
    var s2, t2 := ReplaceAll(s1, '\"', "\\\""), ReplaceAll(t1, '\"', "\\\"");
    ReplaceAllConcat(s2, t2, '\n', "\\n");
    var s3, t3 := ReplaceAll(s2, '\n', "\\n"), ReplaceAll(t2, '\n', "\\n");
    ReplaceAllConcat(s3, t3, '\r', "\\r");
    ReplaceAllConcat(ReplaceAll(s3, '\r', "\\r"), ReplaceAll(t3, '\r', "\\r"), '\t', "\\t");
  }

  /** No later pass touches what an earlier one has produced. */
  lemma EscapeOne(c: char)
    ensures Escape([c]) == EscapeChar(c)
  {
    ReplaceInOne(c, '\\', "\\\\");
    ReplaceInOne(c, '\"', "\\\"");
    ReplaceInOne(c, '\n', "\\n");
    ReplaceInOne(c, '\r', "\\r");
    ReplaceInOne(c, '\t', "\\t");
    if c == '\\' {
      ReplaceInTwo('\\', '\\', '\"', "\\\"");
    }
    if c == '\\' || c == '\"' {
      ReplaceInTwo('\\', c, '\n', "\\n");
      ReplaceInTwo('\\', c, '\r', "\\r");
      ReplaceInTwo('\\', c, '\t', "\\t");
    }
    ReplaceInTwo('\\', 'n', '\r', "\\r");
    ReplaceInTwo('\\', 'n', '\t', "\\t");
    ReplaceInTwo('\\', 'r', '\t', "\\t");
  }

  lemma {:induction false} FivePassesAreOneSubstitution(s: string)
    ensures Escape(s) == Substitute(s)
  {
    if s != "" {
      assert s == [s[0]] + s[1..];
      EscapeConcat([s[0]], s[1..]);
      EscapeOne(s[0]);
      FivePassesAreOneSubstitution(s[1..]);
    }
  }

  /** What stands for each character: the two-character escapes of JSON for these five, itself for any other. */
  lemma EscapesOf(c: char, before: string, after: string)
    ensures Escape(before + [c] + after)
         == Escape(before)
            + (if c == '\\' then ['\\', '\\'] else if c == '\"' then ['\\', '\"'] else if c == '\n' then ['\\', 'n']
               else if c == '\r' then ['\\', 'r'] else if c == '\t' then ['\\', 't'] else [c])
            + Escape(after)
    ensures Escape("") == ""
  {
    EscapeConcat(before + [c], after);
    EscapeConcat(before, [c]);
    EscapeOne(c);
  }

  // ---- nothing is lost ----

  function UnescapeChar(c: char): char {
    match c case 'n' => '\n' case 'r' => '\r' case 't' => '\t' case _ => c
  }

  function Unescape(t: string): string {
    if t == "" then ""
    else if t[0] == '\\' && |t| > 1 then [UnescapeChar(t[1])] + Unescape(t[2..])
    else [t[0]] + Unescape(t[1..])
  }

  lemma UnescapePair(c: char, rest: string)
    ensures Unescape(['\\', c] + rest) == [UnescapeChar(c)] + Unescape(rest)
  {
    assert (['\\', c] + rest)[2..] == rest;
  }

  lemma UnescapeHead(c: char, rest: string)
    ensures Unescape(EscapeChar(c) + rest) == [c] + Unescape(rest)
  {
    var e := EscapeChar(c);
    if |e| == 2 {
      assert e == ['\\', e[1]] && UnescapeChar(e[1]) == c;
      UnescapePair(e[1], rest);
    } else {
      assert e == [c] && ([c] + rest)[1..] == rest;
    }
  }

  lemma {:induction false} UnescapeSubstitute(s: string)
    ensures Unescape(Substitute(s)) == s
  {
    if s != "" {
      UnescapeSubstitute(s[1..]);
      UnescapeHead(s[0], Substitute(s[1..]));
      assert s == [s[0]] + s[1..];
    }
  }

  lemma UnescapeIsLeftInverse(s: string)
    ensures Unescape(Escape(s)) == s
  {
    FivePassesAreOneSubstitution(s);
    UnescapeSubstitute(s);
  }

  lemma EscapeIsInjective(s: string, t: string)
    requires Escape(s) == Escape(t)
    ensures s == t
  {
    UnescapeIsLeftInverse(s);
    UnescapeIsLeftInverse(t);
  }

  // ---- the result can stand between quotes ----

  predicate IsControl(c: char) {
    c < ' '
  }

  lemma {:induction false} SubstitutedControls(s: string, c: char)
    requires IsControl(c)
    ensures c in Substitute(s) <==> c in s && c !in "\n\r\t"
  {
    if s != "" {
      SubstitutedControls(s[1..], c);
      assert s == [s[0]] + s[1..];
    }
  }

  /** No raw line feed, carriage return or tab is left; every other control character passes through as it is. */
  lemma ControlsLeft(s: string, c: char)
    requires IsControl(c)
    ensures c in Escape(s) <==> c in s && c !in "\n\r\t"
  {
    FivePassesAreOneSubstitution(s);
    SubstitutedControls(s, c);
  }

  /** The number of backslashes at the end of t. */
  function Run(t: string): nat {
    if t == "" || t[|t| - 1] != '\\' then 0 else 1 + Run(t[..|t| - 1])
  }

  lemma RunAfter(t: string, c: char)
    ensures Run(t + [c]) == if c == '\\' then 1 + Run(t) else 0
  {
    assert (t + [c])[..|t|] == t;
  }

  lemma {:induction false} SubstituteOneMore(s: string, c: char)
    ensures Substitute(s + [c]) == Substitute(s) + EscapeChar(c)
  {
    if s == "" {
      assert [c][1..] == "";
    } else {
      assert (s + [c])[1..] == s[1..] + [c];
      SubstituteOneMore(s[1..], c);
    }
  }

  lemma InitAndLast(s: string)
    requires s != ""
    ensures s == s[..|s| - 1] + [s[|s| - 1]]
  {
  }

  lemma SubstituteLast(s: string, init: string, c: char)
    requires s == init + [c]
    ensures Substitute(s) == Substitute(init) + EscapeChar(c)
  {
    SubstituteOneMore(init, c);
  }

  lemma RunAfterChar(t: string, c: char)
    ensures Run(t + EscapeChar(c)) == if c == '\\' then 2 + Run(t) else 0
  {
    var e := EscapeChar(c);
    if |e| == 1 {
      RunAfter(t, c);
    } else {
      RunAfter(t, e[0]);
      RunAfter(t + [e[0]], e[1]);
      assert t + e == t + [e[0]] + [e[1]];
    }
  }

  /** Every quote stands after an odd run of backslashes, and a closing quote would stand after an even one. */
  ghost predicate IsTokenBody(t: string) {
    Run(t) % 2 == 0 && forall i :: 0 <= i < |t| ==> QuoteIsEscaped(t, i)
  }

  ghost predicate QuoteIsEscaped(t: string, i: nat)
    requires i < |t|
  {
    t[i] == '\"' ==> Run(t[..i]) % 2 == 1
  }

  lemma QuoteInLast(t: string, c: char, i: nat)
    requires IsTokenBody(t) && |t| <= i < |t + EscapeChar(c)|
    ensures QuoteIsEscaped(t + EscapeChar(c), i)
  {
    if (t + EscapeChar(c))[i] == '\"' {
      RunAfter(t, '\\');
      assert (t + EscapeChar(c))[..i] == t + ['\\'];
    }
  }

  lemma OneMoreChar(t: string, c: char)
    requires IsTokenBody(t)
    ensures IsTokenBody(t + EscapeChar(c))
  {
    RunAfterChar(t, c);
    forall i | 0 <= i < |t + EscapeChar(c)|
      ensures QuoteIsEscaped(t + EscapeChar(c), i)
    {
      if i < |t| {
        assert QuoteIsEscaped(t, i);
        assert (t + EscapeChar(c))[..i] == t[..i];
      } else {
        QuoteInLast(t, c, i);
      }
    }
  }

  lemma {:induction false} SubstituteIsTokenBody(s: string)
    ensures IsTokenBody(Substitute(s))
  {
    if s != "" {
      var n := |s| - 1;
      InitAndLast(s);
      SubstituteIsTokenBody(s[..n]);
      SubstituteLast(s, s[..n], s[n]);
      OneMoreChar(Substitute(s[..n]), s[n]);
    }
  }

  /** Between quotes the escaped string is one JSON string token: it ends at the closing quote, not before. */
  lemma IsOneToken(s: string)
    ensures Run(Escape(s)) % 2 == 0
    ensures forall i :: 0 <= i < |Escape(s)| && Escape(s)[i] == '\"' ==> Run(Escape(s)[..i]) % 2 == 1
  {
    FivePassesAreOneSubstitution(s);
    SubstituteIsTokenBody(s);
    forall i | 0 <= i < |Escape(s)| && Escape(s)[i] == '\"'
      ensures Run(Escape(s)[..i]) % 2 == 1
    {
      assert QuoteIsEscaped(Escape(s), i);
    }
  }
}
