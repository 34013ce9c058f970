/** Citations: the bracketed numbers a generated answer uses, resolved against the numbered chunks
    it was given. */
module Citations {
  import opened AnswerKey

  predicate IsDigit(c: char) {
    '0' <= c <= '9'
  }

  function Number(digits: string): nat
    requires forall i | 0 <= i < |digits| :: IsDigit(digits[i])
  {
    if digits == "" then 0
    else
      assert IsDigit(digits[|digits| - 1]);
      10 * Number(digits[..|digits| - 1]) + (digits[|digits| - 1] as int - '0' as int)
  }

  /** The ten digits are in order. */
  lemma DigitIsItsPlace(c: char)
    requires IsDigit(c)
    ensures 0 <= c as int - '0' as int < 10 && Digit(c as int - '0' as int) == c
    ensures "0123456789"[c as int - '0' as int] == c
  {}

  /** `digits` is zeros, then the number as it is written. */
  ghost predicate Writes(digits: string, n: nat) {
    exists zeros :: IsZeros(digits, zeros) && digits[zeros..] == Decimal(n)
  }

  predicate IsZeros(digits: string, zeros: int) {
    0 <= zeros < |digits| && forall i | 0 <= i < zeros :: digits[i] == '0'
  }

  lemma WrittenSnoc(n: nat, d: nat)
    requires 0 < n && d < 10
    ensures Decimal(10 * n + d) == Decimal(n) + [Digit(d)]
  {
    assert (10 * n + d) / 10 == n && (10 * n + d) % 10 == d;
  }

  lemma AfterZero(front: string, d: nat)
    requires Writes(front, 0) && d < 10
    ensures Writes(front + [Digit(d)], d)
  {
    var zeros :| IsZeros(front, zeros) && front[zeros..] == Decimal(0);
    assert front[zeros] == front[zeros..][0] && |front| == zeros + 1;
    assert IsZeros(front + [Digit(d)], |front|);
  }

  /** One more digit. */
  lemma WritesSnoc(front: string, n: nat, d: nat)
    requires Writes(front, n) && d < 10
    ensures Writes(front + [Digit(d)], 10 * n + d)
  {
    if n == 0 {
      AfterZero(front, d);
    } else {
      var zeros :| IsZeros(front, zeros) && front[zeros..] == Decimal(n);
      WrittenSnoc(n, d);
      assert IsZeros(front + [Digit(d)], zeros);
      assert (front + [Digit(d)])[zeros..] == front[zeros..] + [Digit(d)];
    }
  }

  /** Digits are read as the number they write, behind any leading zeros. */
  lemma {:induction false} NumberReadsDigits(digits: string)
    requires digits != "" && forall i | 0 <= i < |digits| :: IsDigit(digits[i])
    ensures Writes(digits, Number(digits))
    decreases |digits|
  {
    var last := |digits| - 1;
    var front, d := digits[..last], digits[last] as int - '0' as int;
    DigitIsItsPlace(digits[last]);
    if last == 0 {
      assert front == "" && Number(digits) == d;
      OneDigit(digits, d);
    } else {
      NumberReadsDigits(front);
      WritesSnoc(front, Number(front), d);
      assert front + [Digit(d)] == digits && Number(digits) == 10 * Number(front) + d;
    }
  }

  lemma OneDigit(digits: string, d: nat)
    requires d < 10 && digits == [Digit(d)]
    ensures Writes(digits, d)
  {
    assert IsZeros(digits, 0) && digits[0..] == Decimal(d);
  }

  /** What is written reads back. */
  lemma {:induction false} NumberReadsBack(n: nat)
    ensures (forall i | 0 <= i < |Decimal(n)| :: IsDigit(Decimal(n)[i])) && Number(Decimal(n)) == n
  {
    if n >= 10 {
      NumberReadsBack(n / 10);
      assert Decimal(n)[..|Decimal(n)| - 1] == Decimal(n / 10);
    }
  }

  /** The text cites `n` at `i`: a bracket, at least one digit, a bracket. */
  ghost predicate CitesAt(text: string, i: nat, n: nat) {
    exists j: nat :: Bracketed(text, i, j) && Number(text[i + 1..j]) == n
  }

  predicate Bracketed(text: string, i: nat, j: nat) {
    && i + 1 < j < |text| && text[i] == '[' && text[j] == ']'
    && forall k | i < k < j :: IsDigit(text[k])
  }

  ghost predicate CitesBefore(text: string, end: nat, n: nat) {
    exists i: nat :: i < end && CitesAt(text, i, n)
  }

  ghost predicate Cites(text: string, n: nat) {
    exists i: nat :: CitesAt(text, i, n)
  }

  /** End of the digits that start at `i`. */
  function DigitsEnd(text: string, i: nat): (j: nat)
    requires i <= |text|
    ensures i <= j <= |text| && (forall k | i <= k < j :: IsDigit(text[k])) && (j < |text| ==> !IsDigit(text[j]))
    decreases |text| - i
  {
    if i < |text| && IsDigit(text[i]) then DigitsEnd(text, i + 1) else i
  }

  /** A bracketed number ends where its digits do, so there is one way to read it. */
  lemma BracketedIsUnique(text: string, i: nat, j: nat)
    requires i < |text| && Bracketed(text, i, j)
    ensures j == DigitsEnd(text, i + 1)
  {
    var e := DigitsEnd(text, i + 1);
    assert forall k | i + 1 <= k < e :: IsDigit(text[k]);
    assert text[j] == ']' && !IsDigit(text[j]);
    assert j >= e;
  }

  /** All matches of the pattern, left to right; each search resumes behind the last match. */
  method MatchAll(text: string) returns (found: set<nat>)
    ensures forall n: nat :: n in found <==> Cites(text, n)
  {
    found := {};
    var i := 0;
    while i < |text|
      invariant 0 <= i <= |text|
      invariant forall n: nat :: n in found <==> CitesBefore(text, i, n)
    {
      var j := DigitsEnd(text, i + 1);
      if text[i] == '[' && i + 1 < j < |text| && text[j] == ']' {
        var n := Number(text[i + 1..j]);
        assert Bracketed(text, i, j);
        MatchHere(text, i, j);
        found, i := found + {n}, j + 1;
      } else {
        NoMatchHere(text, i);
        i := i + 1;
      }
    }
    forall n: nat ensures n in found <==> Cites(text, n) {
      assert forall k: nat :: CitesAt(text, k, n) ==> k < |text|;
    }
  }

  lemma NoMatchHere(text: string, i: nat)
    requires i < |text|
    requires var j := DigitsEnd(text, i + 1); !(text[i] == '[' && i + 1 < j < |text| && text[j] == ']')
    ensures forall n: nat :: CitesBefore(text, i + 1, n) <==> CitesBefore(text, i, n)
  {
    forall j: nat ensures !Bracketed(text, i, j) {
      if Bracketed(text, i, j) {
        BracketedIsUnique(text, i, j);
      }
    }
    forall n: nat ensures CitesBefore(text, i + 1, n) <==> CitesBefore(text, i, n) {
      assert !CitesAt(text, i, n);
    }
  }

  /** A match cites its one number, and nothing starts inside it. */
  lemma MatchHere(text: string, i: nat, j: nat)
    requires Bracketed(text, i, j)
    ensures forall n: nat :: CitesBefore(text, j + 1, n) <==> CitesBefore(text, i, n) || n == Number(text[i + 1..j])
  {
    forall e: nat | Bracketed(text, i, e) ensures e == j {
      BracketedIsUnique(text, i, e);
      BracketedIsUnique(text, i, j);
    }
    assert CitesAt(text, i, Number(text[i + 1..j]));
    forall n: nat ensures CitesBefore(text, j + 1, n) <==> CitesBefore(text, i, n) || n == Number(text[i + 1..j]) {
      assert forall k: nat | i < k <= j :: text[k] != '[';
      assert forall k: nat | i < k <= j :: !CitesAt(text, k, n);
      assert CitesAt(text, i, n) <==> n == Number(text[i + 1..j]);
    }
  }

  ghost predicate Increasing(s: seq<nat>) {
    forall i, j | 0 <= i < j < |s| :: s[i] < s[j]
  }

  /** Where the sort puts one more index. */
  function Insert(s: seq<nat>, n: nat): seq<nat> {
    if s == [] || n < s[0] then [n] + s else [s[0]] + Insert(s[1..], n)
  }

  lemma {:induction false} InsertSorts(s: seq<nat>, n: nat)
    requires Increasing(s) && n !in s
    ensures Increasing(Insert(s, n)) && forall x :: x in Insert(s, n) <==> x in s || x == n
  {
    if s != [] && n >= s[0] {
      assert s == [s[0]] + s[1..];
      InsertSorts(s[1..], n);
      assert s[0] in s;
      var rest := Insert(s[1..], n);
      forall k | 0 <= k < |rest| ensures s[0] < rest[k] {
        assert rest[k] in rest;
      }
    } else {
      assert forall x :: x in [n] + s <==> x in s || x == n;
    }
  }

  /** The citations of an answer over `chunks` numbered from one: exactly the numbers it cites that
      belong to a chunk, each once and in ascending order. Others are dropped without complaint. */
  method ResolveCitations(text: string, chunks: nat) returns (citations: seq<nat>)
    ensures Increasing(citations)
    ensures forall n: nat :: n in citations <==> Cites(text, n) && 1 <= n <= chunks
  {
    var referenced := MatchAll(text);
    citations := [];
    var left := referenced;
    while left != {}
      invariant left <= referenced && Increasing(citations)
      invariant forall n: nat :: n in citations <==> n in referenced && n !in left && 1 <= n <= chunks
      decreases |left|
    {
      var index :| index in left;
      left := left - {index};
      if 1 <= index <= chunks {
        InsertSorts(citations, index);
        citations := Insert(citations, index);
      }
    }
  }

  lemma NonEmptyHasMember(s: seq<nat>)
    requires s != []
    ensures exists n: nat :: n in s
  {
    assert s[0] in s;
  }

  /** The result is determined: an ascending list of the same numbers is the same list. */
  lemma {:induction false} IncreasingIsUnique(a: seq<nat>, b: seq<nat>)
    requires Increasing(a) && Increasing(b) && forall n: nat :: n in a <==> n in b
    ensures a == b
    decreases |a|
  {
    if a != [] && b != [] {
      assert a[0] in b && b[0] in a;
      assert a[0] == b[0];
      forall n: nat ensures n in a[1..] <==> n in b[1..] {
        assert a == [a[0]] + a[1..] && b == [b[0]] + b[1..];
        assert n in a <==> n == a[0] || n in a[1..];
        assert n in b <==> n == b[0] || n in b[1..];
      }
      IncreasingIsUnique(a[1..], b[1..]);
    } else {
      if a != [] {
        NonEmptyHasMember(a);
      } else if b != [] {
        NonEmptyHasMember(b);
      }
    }
  }
}
