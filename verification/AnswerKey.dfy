/** What a cached answer is filed under: the normal form of a question, and the key built from it. */
module AnswerKey {
  // ---------------------------------------------------------------- normal form

  predicate IsSpace(c: char) {
    c == ' ' || ('\t' <= c <= '\r')
  }

  predicate IsTail(c: char) {
    IsSpace(c) || c == '?' || c == '!' || c == '.'
  }

  predicate IsUpper(c: char) {
    'A' <= c <= 'Z'
  }

  function Lower(s: string): (r: string)
    ensures |r| == |s| && forall i | 0 <= i < |s| :: r[i] == if IsUpper(s[i]) then (s[i] as int + 32) as char else s[i]
  {
    seq(|s|, i requires 0 <= i < |s| => if IsUpper(s[i]) then (s[i] as int + 32) as char else s[i])
  }

  /** Every run of white space becomes one space. */
  function Collapse(s: string): string {
    if s == "" then ""
    else if !IsSpace(s[0]) then s[..1] + Collapse(s[1..])
    else if |s| > 1 && IsSpace(s[1]) then Collapse(s[1..])
    else " " + Collapse(s[1..])
  }

  function TrimLeft(s: string): string {
    if s != "" && IsSpace(s[0]) then TrimLeft(s[1..]) else s
  }

  function TrimRight(s: string): string {
    if s != "" && IsSpace(s[|s| - 1]) then TrimRight(s[..|s| - 1]) else s
  }

  function StripTail(s: string): string {
    if s != "" && IsTail(s[|s| - 1]) then StripTail(s[..|s| - 1]) else s
  }

  function Normalize(question: string): string {
    StripTail(TrimRight(TrimLeft(Collapse(Lower(question)))))
  }

  /** Single inner spaces, nothing upper case, no closing punctuation. */
  ghost predicate Normal(s: string) {
    && Spaced(s)
    && Lowered(s)
    && (s != "" ==> !IsSpace(s[0]) && !IsSpace(s[|s| - 1]))
    && (s != "" ==> s[|s| - 1] != '?' && s[|s| - 1] != '!' && s[|s| - 1] != '.')
  }

  /** White space occurs only as single spaces. */
  ghost predicate Spaced(s: string) {
    && (forall i | 0 <= i < |s| :: IsSpace(s[i]) ==> s[i] == ' ')
    && (forall i, j | 0 <= i < j < |s| && j == i + 1 :: !(IsSpace(s[i]) && IsSpace(s[j])))
  }

  /** The characters that are not white space, in order. */
  function Solid(s: string): string {
    if s == "" then "" else (if IsSpace(s[0]) then "" else s[..1]) + Solid(s[1..])
  }

  lemma {:induction false} CollapseSpaces(s: string)
    ensures Spaced(Collapse(s))
    ensures s != "" ==> Collapse(s) != "" && (IsSpace(Collapse(s)[0]) <==> IsSpace(s[0]))
  {
    if s != "" {
      CollapseSpaces(s[1..]);
      if !IsSpace(s[0]) {
        SpacedCons(s[0], Collapse(s[1..]));
      } else if |s| == 1 || !IsSpace(s[1]) {
        SpacedCons(' ', Collapse(s[1..]));
      }
    }
  }

  lemma SpacedCons(c: char, rest: string)
    requires Spaced(rest) && (IsSpace(c) ==> c == ' ' && (rest == "" || !IsSpace(rest[0])))
    ensures Spaced([c] + rest)
  {
    var all := [c] + rest;
    assert forall i | 0 < i < |all| :: all[i] == rest[i - 1];
  }

  lemma {:induction false} CollapseKeeps(s: string)
    ensures Solid(Collapse(s)) == Solid(s)
    ensures Lowered(s) ==> Lowered(Collapse(s))
  {
    if s != "" {
      CollapseKeeps(s[1..]);
      var rest := Collapse(s[1..]);
      assert ([s[0]] + rest)[1..] == rest && (" " + rest)[1..] == rest;
    }
  }

  lemma {:induction false} CollapseIsIdle(s: string)
    requires Spaced(s)
    ensures Collapse(s) == s
  {
    if s != "" {
      assert Spaced(s[1..]);
      CollapseIsIdle(s[1..]);
    }
  }

  lemma {:induction false} TrimLeftTrims(s: string)
    ensures TrimLeft(s) != "" ==> !IsSpace(TrimLeft(s)[0])
    ensures Solid(TrimLeft(s)) == Solid(s) && |TrimLeft(s)| <= |s|
    ensures TrimLeft(s) == s[|s| - |TrimLeft(s)|..]
  {
    if s != "" && IsSpace(s[0]) {
      TrimLeftTrims(s[1..]);
    }
  }

  lemma {:induction false} TrimRightTrims(s: string)
    ensures TrimRight(s) <= s && Solid(TrimRight(s)) == Solid(s)
    ensures TrimRight(s) != "" ==> !IsSpace(TrimRight(s)[|TrimRight(s)| - 1])
  {
    if s != "" && IsSpace(s[|s| - 1]) {
      TrimRightTrims(s[..|s| - 1]);
      SolidSnoc(s[..|s| - 1], s[|s| - 1]);
      assert s[..|s| - 1] + [s[|s| - 1]] == s;
    }
  }

  lemma {:induction false} SolidSnoc(s: string, c: char)
    ensures Solid(s + [c]) == Solid(s) + (if IsSpace(c) then "" else [c])
  {
    if s != "" {
      SolidSnoc(s[1..], c);
      assert (s + [c])[1..] == s[1..] + [c];
    } else {
      assert (s + [c])[1..] == "";
    }
  }

  lemma {:induction false} StripTailStrips(s: string)
    ensures StripTail(s) <= s
    ensures StripTail(s) != "" ==> !IsTail(StripTail(s)[|StripTail(s)| - 1])
    ensures StripTail(Solid(s)) == Solid(StripTail(s))
  {
    if s != "" {
      var front, last := s[..|s| - 1], s[|s| - 1];
      SolidSnoc(front, last);
      assert front + [last] == s;
      assert !IsSpace(last) ==> Solid(s)[..|Solid(s)| - 1] == Solid(front) && Solid(s)[|Solid(s)| - 1] == last;
      if IsTail(last) {
        StripTailStrips(front);
        if IsSpace(last) {
          assert Solid(s) == Solid(front);
        } else {
          assert StripTail(Solid(s)) == StripTail(Solid(front));
        }
        assert StripTail(s) == StripTail(front);
      } else {
        assert StripTail(s) == s;
      }
    }
  }

  ghost predicate Lowered(s: string) {
    forall i | 0 <= i < |s| :: !('A' <= s[i] <= 'Z')
  }

  lemma PrefixKeeps(s: string, p: string)
    requires p <= s && Spaced(s) && Lowered(s)
    ensures Spaced(p) && Lowered(p)
  {
    assert forall i | 0 <= i < |p| :: p[i] == s[i];
  }

  lemma TrimmedLeft(c: string)
    requires Spaced(c) && Lowered(c)
    ensures Spaced(TrimLeft(c)) && Lowered(TrimLeft(c)) && (TrimLeft(c) != "" ==> !IsSpace(TrimLeft(c)[0]))
  {
    TrimLeftTrims(c);
    var t := TrimLeft(c);
    assert forall i | 0 <= i < |t| :: t[i] == c[|c| - |t| + i];
  }

  /** A normal form is one, whatever the question. */
  lemma NormalizeIsNormal(q: string)
    ensures Normal(Normalize(q))
  {
    CollapseSpaces(Lower(q));
    CollapseKeeps(Lower(q));
    var c := Collapse(Lower(q));
    TrimmedLeft(c);
    var t := TrimLeft(c);
    TrimRightTrims(t);
    PrefixKeeps(t, TrimRight(t));
    StripTailStrips(TrimRight(t));
    PrefixKeeps(TrimRight(t), Normalize(q));
  }

  /** Questions already in normal form are exactly those normalisation leaves alone; so it is
      idempotent. */
  lemma NormalIsFixed(q: string)
    ensures Normalize(q) == q <==> Normal(q)
  {
    NormalizeIsNormal(q);
    if Normal(q) {
      LoweredIsIdle(q);
      CollapseIsIdle(q);
    }
  }

  lemma LoweredIsIdle(q: string)
    requires Lowered(q)
    ensures Lower(q) == q
  {}

  /** Nothing but case, white space and closing punctuation is lost: the visible characters of the
      normal form are those of the question in lower case, less its closing punctuation. */
  lemma NormalizeKeepsCharacters(q: string)
    ensures Solid(Normalize(q)) == StripTail(Solid(Lower(q)))
  {
    CollapseKeeps(Lower(q));
    var c := Collapse(Lower(q));
    TrimLeftTrims(c);
    TrimRightTrims(TrimLeft(c));
    StripTailStrips(TrimRight(TrimLeft(c)));
  }

  // ---------------------------------------------------------------- the key

  datatype Identity = Identity(workspaceId: nat, publicKey: string, knowledgeVersion: nat)

  function Digit(d: nat): char
    requires d < 10
  {
    '0' + d as char
  }

  function Decimal(n: nat): (r: string)
    ensures r != "" && forall c | c in r :: '0' <= c <= '9'
  {
    if n < 10 then [Digit(n)] else Decimal(n / 10) + [Digit(n % 10)]
  }

  /** `digest` stands for the hash of the normal form. */
  function BuildKey(id: Identity, promptVersion: nat, question: string, digest: string -> string): string {
    "answer:" + (Decimal(id.workspaceId) + ":" + (id.publicKey + ":" + (("v" + Decimal(id.knowledgeVersion)) + ":" +
    (("p" + Decimal(promptVersion)) + ":" + digest(Normalize(question))))))
  }

  function LockKey(cacheKey: string): string {
    "lock:" + cacheKey
  }

  lemma {:induction false} DecimalIsInjective(m: nat, n: nat)
    requires Decimal(m) == Decimal(n)
    ensures m == n
  {
    var a, b := Decimal(m), Decimal(n);
    assert a[|a| - 1] == b[|b| - 1] && a[..|a| - 1] == b[..|b| - 1];
    assert m >= 10 ==> Decimal(m / 10) == a[..|a| - 1];
    assert n >= 10 ==> Decimal(n / 10) == b[..|b| - 1];
    if m >= 10 && n >= 10 {
      DecimalIsInjective(m / 10, n / 10);
    }
  }

  lemma SplitIsUnique(a: string, x: string, b: string, y: string)
    requires ':' !in a && ':' !in b && a + ":" + x == b + ":" + y
    ensures a == b && x == y
  {
    var left, right := a + ":" + x, b + ":" + y;
    assert left[|a|] == ':' && right[|b|] == ':';
    assert forall i | 0 <= i < |a| :: left[i] == a[i] && a[i] != ':';
    assert forall i | 0 <= i < |b| :: right[i] == b[i] && b[i] != ':';
    assert |a| == |b|;
    assert left[..|a|] == a && right[..|b|] == b && left[|a| + 1..] == x && right[|b| + 1..] == y;
  }

  lemma FieldIsUnique(letter: string, m: nat, x: string, n: nat, y: string)
    requires |letter| == 1 && letter != ":" && (letter + Decimal(m)) + ":" + x == (letter + Decimal(n)) + ":" + y
    ensures m == n && x == y
  {
    SplitIsUnique(letter + Decimal(m), x, letter + Decimal(n), y);
    assert (letter + Decimal(m))[1..] == Decimal(m) && (letter + Decimal(n))[1..] == Decimal(n);
    DecimalIsInjective(m, n);
  }

  ghost predicate Injective(digest: string -> string) {
    forall x, y | digest(x) == digest(y) :: x == y
  }

  /** Two questions share a cache key exactly if they agree in workspace, public key, knowledge
      version, prompt version and normal form: no component can run into another. */
  lemma KeysNeverCollide(a: Identity, v: nat, q: string, b: Identity, w: nat, r: string, digest: string -> string)
    requires Injective(digest) && ':' !in a.publicKey && ':' !in b.publicKey
    ensures BuildKey(a, v, q, digest) == BuildKey(b, w, r, digest) <==> a == b && v == w && Normalize(q) == Normalize(r)
  {
    if BuildKey(a, v, q, digest) == BuildKey(b, w, r, digest) {
      var k, l := BuildKey(a, v, q, digest), BuildKey(b, w, r, digest);
      assert k[7..] == l[7..];
      var pa, pb := ("p" + Decimal(v)) + ":" + digest(Normalize(q)), ("p" + Decimal(w)) + ":" + digest(Normalize(r));
      var va, vb := ("v" + Decimal(a.knowledgeVersion)) + ":" + pa, ("v" + Decimal(b.knowledgeVersion)) + ":" + pb;
      SplitIsUnique(Decimal(a.workspaceId), a.publicKey + ":" + va, Decimal(b.workspaceId), b.publicKey + ":" + vb);
      DecimalIsInjective(a.workspaceId, b.workspaceId);
      SplitIsUnique(a.publicKey, va, b.publicKey, vb);
      FieldIsUnique("v", a.knowledgeVersion, pa, b.knowledgeVersion, pb);
      FieldIsUnique("p", v, digest(Normalize(q)), w, digest(Normalize(r)));
    }
  }

  /** A lock is never mistaken for an entry, and locks differ as their entries do. */
  lemma LocksNeverCollide(k: string, id: Identity, v: nat, q: string, digest: string -> string)
    ensures LockKey(k) != BuildKey(id, v, q, digest)
    ensures forall l :: LockKey(k) == LockKey(l) <==> k == l
  {
    assert LockKey(k)[0] == 'l' && BuildKey(id, v, q, digest)[0] == 'a';
    forall l ensures LockKey(k) == LockKey(l) <==> k == l {
      assert LockKey(k)[5..] == k && LockKey(l)[5..] == l;
    }
  }
}
