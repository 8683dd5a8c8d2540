/** String helpers shared by the responders and the record store: Python's
    `str.lower`, `str.strip`, the `in` substring test, slicing `s[:n]`,
    `str(n)` and keyword-priority classification. Strings are sequences of
    Unicode code points, as in Python 3. */
module Text {

  datatype Option<+T> = None | Some(value: T)

  datatype Result<+T, +E> = Success(value: T) | Failure(error: E)

  function Min(a: int, b: int): int { if a <= b then a else b }

  // ----- lower-casing -------------------------------------------------------

  predicate IsAsciiUpper(c: char) { 'A' <= c <= 'Z' }

  function LowerChar(c: char): char
  {
    if IsAsciiUpper(c) then (c as int + 32) as char else c
  }

  /** `s.lower()` restricted to ASCII letters; Devanagari has no case and is
      left as it is. */
  function Lower(s: string): (r: string)
    ensures |r| == |s|
    ensures forall i :: 0 <= i < |s| ==> !IsAsciiUpper(r[i])
    ensures forall i :: 0 <= i < |s| && !IsAsciiUpper(s[i]) ==> r[i] == s[i]
  {
    seq(|s|, i requires 0 <= i < |s| => LowerChar(s[i]))
  }

  /** Each ASCII capital becomes its small letter, 32 code points above. */
  lemma LowerShiftsCapitals(s: string)
    ensures forall i :: 0 <= i < |s| && IsAsciiUpper(s[i]) ==> Lower(s)[i] as int == s[i] as int + 32
  {
  }

  // ----- stripping ----------------------------------------------------------

  /** The characters Python's `str.isspace` accepts, which `str.strip()`
      removes from both ends. */
  predicate IsSpace(c: char)
  {
    c == ' ' || ('\t' <= c <= '\r') || ('\U{1C}' <= c <= '\U{1F}')
    || c == '\U{85}' || c == '\U{A0}' || c == '\U{1680}'
    || ('\U{2000}' <= c <= '\U{200A}') || c == '\U{2028}' || c == '\U{2029}'
    || c == '\U{202F}' || c == '\U{205F}' || c == '\U{3000}'
  }

  function StripLeft(s: string): string
  {
    if s != [] && IsSpace(s[0]) then StripLeft(s[1..]) else s
  }

  function StripRight(s: string): string
  {
    if s != [] && IsSpace(s[|s| - 1]) then StripRight(s[..|s| - 1]) else s
  }

  /** `s.strip()`: leading whitespace dropped one character at a time, then
      the trailing whitespace. */
  function Strip(s: string): string
  {
    if s != [] && IsSpace(s[0]) then Strip(s[1..]) else StripRight(s)
  }

  /** Strip drops whitespace at both ends: it is StripRight after StripLeft,
      whose specifications say what each end keeps. */
  lemma {:induction false} StripBothEnds(s: string)
    ensures Strip(s) == StripRight(StripLeft(s))
  {
    if s != [] && IsSpace(s[0]) {
      StripBothEnds(s[1..]);
    }
  }

  /** StripLeft drops the leading whitespace and nothing else. */
  lemma {:induction false} StripLeftSpec(s: string)
    ensures var r := StripLeft(s);
      |r| <= |s| && r == s[|s| - |r|..]
      && (forall k :: 0 <= k < |s| - |r| ==> IsSpace(s[k]))
      && (r == [] || !IsSpace(r[0]))
  {
    if s != [] && IsSpace(s[0]) {
      var t := s[1..];
      StripLeftSpec(t);
      var r := StripLeft(t);
      assert StripLeft(s) == r;
      assert r == t[|t| - |r|..] == s[|s| - |r|..];
      forall k | 0 <= k < |s| - |r| ensures IsSpace(s[k]) {
        if k > 0 { assert s[k] == t[k - 1]; }
      }
    }
  }

  /** StripRight drops the trailing whitespace and nothing else. */
  lemma {:induction false} StripRightSpec(s: string)
    ensures var r := StripRight(s);
      |r| <= |s| && r == s[..|r|]
      && (forall k :: |r| <= k < |s| ==> IsSpace(s[k]))
      && (r == [] || !IsSpace(r[|r| - 1]))
  {
    if s != [] && IsSpace(s[|s| - 1]) {
      var t := s[..|s| - 1];
      StripRightSpec(t);
      var r := StripRight(t);
      assert StripRight(s) == r;
      assert r == t[..|r|] == s[..|r|];
      forall k | |r| <= k < |s| ensures IsSpace(s[k]) {
        if k < |s| - 1 { assert s[k] == t[k]; }
      }
    }
  }

  // ----- substrings ---------------------------------------------------------

  /** Python's `sub in s`. */
  predicate Contains(s: string, sub: string)
    decreases |s|
  {
    if |sub| > |s| then false
    else if s[..|sub|] == sub then true
    else |s| > 0 && Contains(s[1..], sub)
  }

  /** `any(k in s for k in keywords)`. */
  predicate ContainsAny(s: string, keywords: seq<string>)
  {
    |keywords| > 0 && (Contains(s, keywords[0]) || ContainsAny(s, keywords[1..]))
  }

  /** `sub` occurs in `s` starting at index `i`. */
  predicate OccursAt(s: string, sub: string, i: int)
  {
    0 <= i <= |s| - |sub| && s[i..i + |sub|] == sub
  }

  /** The non-recursive reading of Contains: some window of `s` equals `sub`. */
  lemma {:induction false} ContainsAt(s: string, sub: string)
    ensures Contains(s, sub) <==> exists i :: OccursAt(s, sub, i)
  {
    if |sub| > |s| {
    } else if s[..|sub|] == sub {
      assert OccursAt(s, sub, 0);
    } else if |s| == 0 {
    } else {
      ContainsAt(s[1..], sub);
      if Contains(s[1..], sub) {
        var i :| OccursAt(s[1..], sub, i);
        assert OccursAt(s, sub, i + 1);
      }
      if exists i :: OccursAt(s, sub, i) {
        var i :| OccursAt(s, sub, i);
        assert i != 0;
        assert OccursAt(s[1..], sub, i - 1);
      }
    }
  }

  /** The non-recursive reading of ContainsAny. */
  lemma {:induction false} ContainsAnyAt(s: string, keywords: seq<string>)
    ensures ContainsAny(s, keywords) <==> exists j :: 0 <= j < |keywords| && Contains(s, keywords[j])
  {
    if |keywords| > 0 {
      ContainsAnyAt(s, keywords[1..]);
      if exists j :: 0 <= j < |keywords| && Contains(s, keywords[j]) {
        var j :| 0 <= j < |keywords| && Contains(s, keywords[j]);
        if j > 0 { assert keywords[1..][j - 1] == keywords[j]; }
      }
    }
  }

  /** Python's `s[:n]` for `n >= 0`: the first `n` characters, or all of `s`
      when it is shorter. */
  function Take<T>(s: seq<T>, n: nat): (r: seq<T>)
    ensures |r| == Min(n, |s|)
    ensures r <= s
  {
    if n <= |s| then s[..n] else s
  }

  // ----- counting -----------------------------------------------------------

  /** `s.count(c)` for a single character. */
  function CountChar(s: string, c: char): nat
  {
    if s == [] then 0 else (if s[0] == c then 1 else 0) + CountChar(s[1..], c)
  }

  lemma {:induction false} CountCharAppend(a: string, b: string, c: char)
    ensures CountChar(a + b, c) == CountChar(a, c) + CountChar(b, c)
  {
    if a != [] {
      assert (a + b)[0] == a[0] && (a + b)[1..] == a[1..] + b;
      CountCharAppend(a[1..], b, c);
    } else {
      assert a + b == b;
    }
  }

  lemma {:induction false} CountCharAbsent(s: string, c: char)
    requires c !in s
    ensures CountChar(s, c) == 0
  {
    if s != [] {
      assert forall x :: x in s[1..] ==> x in s;
      CountCharAbsent(s[1..], c);
    }
  }

  // ----- numbers ------------------------------------------------------------

  function DigitChar(d: nat): char
    requires d < 10
  {
    ('0' as int + d) as char
  }

  /** `str(n)` for a natural number: its decimal digits, without leading
      zeros. */
  function NatToString(n: nat): (r: string)
    ensures |r| >= 1
    ensures forall k :: 0 <= k < |r| ==> '0' <= r[k] <= '9'
    ensures n > 0 ==> r[0] != '0'
    ensures n < 10 ==> r == [DigitChar(n)]
  {
    if n < 10 then [DigitChar(n)] else NatToString(n / 10) + [DigitChar(n % 10)]
  }

  /** `int(s)` for a string of decimal digits. */
  function DigitsValue(s: string): nat
    requires forall k :: 0 <= k < |s| ==> '0' <= s[k] <= '9'
  {
    if s == [] then 0
    else DigitsValue(s[..|s| - 1]) * 10 + (s[|s| - 1] as int - '0' as int)
  }

  /** `str(n)` reads back as `n`. */
  lemma {:induction false} NatToStringValue(n: nat)
    ensures DigitsValue(NatToString(n)) == n
  {
    if n >= 10 {
      NatToStringValue(n / 10);
      var r := NatToString(n);
      assert r[..|r| - 1] == NatToString(n / 10);
    }
  }

  // ----- failing writes -----------------------------------------------------

  /** The number of writes, out of `n`, that run before the first one the
      storage refuses (`ok(i)` false), or `n` when none is refused: a write
      that raises ends the loop it is in. */
  function FirstRefusal(ok: nat -> bool, n: nat): (k: nat)
    ensures k <= n
    ensures forall i :: 0 <= i < k ==> ok(i)
    ensures k < n ==> !ok(k)
  {
    if n == 0 then 0
    else
      var k := FirstRefusal(ok, n - 1);
      if k < n - 1 || !ok(n - 1) then k else n
  }

  // ----- keyword priority ---------------------------------------------------

  /** One branch of an if/elif keyword chain: the topic it answers and the
      keywords that select it. */
  datatype Rule<T> = Rule(topic: T, keywords: seq<string>)

  /** Rule `i` is the one a first-match-wins chain picks for `text`: its
      keywords occur in `text` and no earlier rule's do. */
  predicate FirstMatchAt<T>(rules: seq<Rule<T>>, text: string, i: int)
  {
    0 <= i < |rules| && ContainsAny(text, rules[i].keywords)
    && forall j :: 0 <= j < i ==> !ContainsAny(text, rules[j].keywords)
  }

  /** No rule's keywords occur in `text`, so the chain falls through. */
  predicate NoMatch<T>(rules: seq<Rule<T>>, text: string)
  {
    forall j :: 0 <= j < |rules| ==> !ContainsAny(text, rules[j].keywords)
  }

  /** The topic of the first rule whose keywords occur in `text`, or
      `otherwise` when none does: an if/elif chain over the rules in order. */
  function FirstMatch<T>(rules: seq<Rule<T>>, text: string, otherwise: T): T
  {
    if rules == [] then otherwise
    else if ContainsAny(text, rules[0].keywords) then rules[0].topic
    else FirstMatch(rules[1..], text, otherwise)
  }

  /** The chain answers with the rule that wins under first-match-wins, and
      falls through exactly when no rule matches. */
  lemma {:induction false} FirstMatchSpec<T>(rules: seq<Rule<T>>, text: string, otherwise: T)
    ensures NoMatch(rules, text) ==> FirstMatch(rules, text, otherwise) == otherwise
    ensures forall i :: FirstMatchAt(rules, text, i) ==> FirstMatch(rules, text, otherwise) == rules[i].topic
    ensures !NoMatch(rules, text) ==> exists i :: FirstMatchAt(rules, text, i)
  {
    if rules == [] {
    } else if ContainsAny(text, rules[0].keywords) {
      assert FirstMatchAt(rules, text, 0);
    } else {
      var tail := rules[1..];
      FirstMatchSpec(tail, text, otherwise);
      assert forall j :: 1 <= j < |rules| ==> rules[j] == tail[j - 1];
      forall i | FirstMatchAt(rules, text, i)
        ensures FirstMatchAt(tail, text, i - 1)
      {
      }
      if !NoMatch(rules, text) {
        var j :| 0 <= j < |rules| && ContainsAny(text, rules[j].keywords);
        assert !NoMatch(tail, text);
        var i :| FirstMatchAt(tail, text, i);
        assert FirstMatchAt(rules, text, i + 1);
      } else {
        assert NoMatch(tail, text);
      }
    }
  }

  /** A first-match-wins chain picks at most one rule, and picks exactly one
      unless it falls through. */
  lemma FirstMatchUnique<T>(rules: seq<Rule<T>>, text: string, i: int, j: int)
    requires FirstMatchAt(rules, text, i) && FirstMatchAt(rules, text, j)
    ensures i == j && !NoMatch(rules, text)
  {
  }
}
