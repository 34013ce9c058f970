/** Building a "contains" pattern from user input, against SQL LIKE with backslash as the escape
    character (section 8.5 of ISO/IEC 9075-2). */
module LikePattern {
  const ESCAPE_CHAR := '\\'

  predicate IsMeta(c: char) {
    c == ESCAPE_CHAR || c == '%' || c == '_'
  }

  function Escape(input: string): string {
    if input == "" then ""
    else (if IsMeta(input[0]) then [ESCAPE_CHAR, input[0]] else [input[0]]) + Escape(input[1..])
  }

  function ContainsPattern(input: string): string {
    "%" + Escape(input) + "%"
  }

  /** Every escape character is followed by a metacharacter; anything else is an error. */
  predicate WellFormed(p: string) {
    if p == "" then true
    else if p[0] == ESCAPE_CHAR then |p| > 1 && IsMeta(p[1]) && WellFormed(p[2..])
    else WellFormed(p[1..])
  }

  predicate Like(p: string, s: string)
    requires WellFormed(p)
    decreases |p|, |s|
  {
    if p == "" then s == ""
    else if p[0] == '%' then Like(p[1..], s) || (s != "" && Like(p, s[1..]))
    else if s == "" then false
    else if p[0] == '_' then Like(p[1..], s[1..])
    else if p[0] == ESCAPE_CHAR then s[0] == p[1] && Like(p[2..], s[1..])
    else s[0] == p[0] && Like(p[1..], s[1..])
  }

  /** A case folding that leaves the metacharacters alone and produces none. */
  ghost predicate Folds(fold: char -> char) {
    forall c :: if IsMeta(c) then fold(c) == c else !IsMeta(fold(c))
  }

  function Fold(fold: char -> char, s: string): (r: string)
    ensures |r| == |s| && forall i | 0 <= i < |s| :: r[i] == fold(s[i])
  {
    seq(|s|, i requires 0 <= i < |s| => fold(s[i]))
  }

  predicate OccursAt(x: string, s: string, i: nat) {
    i + |x| <= |s| && s[i..i + |x|] == x
  }

  /** One escaped character stands for itself. */
  lemma LiteralStep(c: char, rest: string, s: string)
    requires WellFormed(rest)
    ensures var q := (if IsMeta(c) then [ESCAPE_CHAR, c] else [c]) + rest;
            WellFormed(q) && (Like(q, s) <==> s != "" && s[0] == c && Like(rest, s[1..]))
  {
    var q := (if IsMeta(c) then [ESCAPE_CHAR, c] else [c]) + rest;
    if IsMeta(c) {
      assert q[0] == ESCAPE_CHAR && q[1] == c && q[2..] == rest;
    } else {
      assert q[0] == c && q[1..] == rest;
    }
  }

  lemma {:induction false} EscapedMatchesLiterally(x: string, p: string, s: string)
    requires WellFormed(p)
    ensures WellFormed(Escape(x) + p)
    ensures Like(Escape(x) + p, s) <==> x <= s && Like(p, s[|x|..])
    decreases |x|
  {
    if x == "" {
      assert Escape(x) + p == p && s[0..] == s;
    } else {
      var rest := Escape(x[1..]) + p;
      assert Escape(x) + p == (if IsMeta(x[0]) then [ESCAPE_CHAR, x[0]] else [x[0]]) + rest;
      EscapedMatchesLiterally(x[1..], p, if s == "" then s else s[1..]);
      LiteralStep(x[0], rest, s);
      if s != "" {
        PrefixStep(x, s);
      }
    }
  }

  lemma PrefixStep(x: string, s: string)
    requires x != "" && s != ""
    ensures x <= s <==> x[0] == s[0] && x[1..] <= s[1..]
    ensures x <= s ==> s[1..][|x| - 1..] == s[|x|..]
  {
    if x[0] == s[0] && x[1..] <= s[1..] {
      assert x == [x[0]] + x[1..] && s == [s[0]] + s[1..];
    }
  }

  lemma {:induction false} PercentSkipsAny(p: string, s: string)
    requires WellFormed(p)
    ensures WellFormed("%" + p)
    ensures Like("%" + p, s) <==> exists i | 0 <= i <= |s| :: Like(p, s[i..])
    decreases |s|
  {
    var q := "%" + p;
    assert q[1..] == p && s[0..] == s;
    if s != "" {
      PercentSkipsAny(p, s[1..]);
      forall i | 0 <= i <= |s| - 1 ensures s[1..][i..] == s[i + 1..] {}
      if Like(q, s[1..]) {
        var i :| 0 <= i <= |s| - 1 && Like(p, s[1..][i..]);
        assert Like(p, s[i + 1..]);
      }
      if i :| 0 <= i <= |s| && Like(p, s[i..]) && i != 0 {
        assert s[1..][i - 1..] == s[i..];
      }
    }
  }

  lemma {:induction false} EscapeCommutesWithFold(fold: char -> char, x: string)
    requires Folds(fold)
    ensures Fold(fold, Escape(x)) == Escape(Fold(fold, x))
    decreases |x|
  {
    if x != "" {
      EscapeCommutesWithFold(fold, x[1..]);
      assert Fold(fold, x)[1..] == Fold(fold, x[1..]);
    }
  }

  /** The search means what was typed: for every input and every text, the pattern is well formed
      and ILIKE matches exactly when the input occurs in the text, letter case aside. */
  lemma ContainsMeansSubstring(fold: char -> char, x: string, s: string)
    requires Folds(fold)
    ensures var p := Fold(fold, ContainsPattern(x));
            && WellFormed(p)
            && (Like(p, Fold(fold, s)) <==> exists i: nat :: OccursAt(Fold(fold, x), Fold(fold, s), i))
  {
    var fx, fs := Fold(fold, x), Fold(fold, s);
    EscapeCommutesWithFold(fold, x);
    var p := Fold(fold, ContainsPattern(x));
    assert p == "%" + (Escape(fx) + "%");
    AnythingMatchesPercent("");
    EscapedMatchesLiterally(fx, "%", "");
    PercentSkipsAny(Escape(fx) + "%", fs);
    forall i | 0 <= i <= |fs|
      ensures Like(Escape(fx) + "%", fs[i..]) <==> OccursAt(fx, fs, i)
    {
      EscapedMatchesLiterally(fx, "%", fs[i..]);
      if fx <= fs[i..] {
        AnythingMatchesPercent(fs[i..][|fx|..]);
        assert fs[i..][..|fx|] == fs[i..i + |fx|];
      } else if i + |fx| <= |fs| {
        assert fs[i..i + |fx|] == fs[i..][..|fx|];
      }
    }
  }

  /** The same for plain LIKE, where case counts. */
  lemma ContainsMeansExactSubstring(x: string, s: string)
    ensures WellFormed(ContainsPattern(x))
    ensures Like(ContainsPattern(x), s) <==> exists i: nat :: OccursAt(x, s, i)
  {
    var id := (c: char) => c;
    ContainsMeansSubstring(id, x, s);
    assert Fold(id, ContainsPattern(x)) == ContainsPattern(x) && Fold(id, x) == x && Fold(id, s) == s;
  }

  /** What the escaping keeps out: typed as it is, an underscore would find any character. */
  lemma UnderscoreMatchesAny(s: string)
    ensures Like("_", s) <==> |s| == 1
    ensures Like(Escape("_"), s) <==> s == "_"
  {
    assert "_"[1..] == "";
    EscapedMatchesLiterally("_", "", s);
    assert Escape("_") + "" == Escape("_");
    if s != "" {
      assert Like("", s[1..]) <==> s[1..] == "";
    }
  }

  lemma {:induction false} AnythingMatchesPercent(s: string)
    ensures WellFormed("%") && Like("%", s)
    decreases |s|
  {
    assert "%"[1..] == "";
    if s != "" {
      AnythingMatchesPercent(s[1..]);
    }
  }
}
