/** String helpers the pipeline relies on: ASCII lower-casing as done by
    Python's `str.lower`, the "lower-case, spaces to underscores" column-naming
    rule, whitespace tokenising as done by `str.split()`, and decimal integer
    parsing. */
module Text {
  import opened Wrappers

  // ---------------------------------------------------------------------------
  // Case folding and the column-naming rule
  // ---------------------------------------------------------------------------

  predicate IsUpper(c: char) {
    'A' <= c <= 'Z'
  }

  function LowerChar(c: char): (r: char)
    ensures !IsUpper(r)
    ensures IsUpper(c) ==> r as int == c as int + 32
    ensures !IsUpper(c) ==> r == c
  {
    if IsUpper(c) then (c as int + 32) as char else c
  }

  /** `s.lower()`, restricted to ASCII letters. */
  function Lower(s: string): (r: string)
    ensures |r| == |s|
    ensures forall i :: 0 <= i < |s| ==> r[i] == LowerChar(s[i])
  {
    seq(|s|, i requires 0 <= i < |s| => LowerChar(s[i]))
  }

  /** Case-insensitive equality of two names, as `a.lower() == b.lower()`. */
  predicate SameIgnoringCase(a: string, b: string) {
    Lower(a) == Lower(b)
  }

  /** A space becomes an underscore; every other character is lower-cased. */
  function SnakeChar(c: char): (r: char)
    ensures c == ' ' ==> r == '_'
    ensures c != ' ' ==> r == LowerChar(c)
  {
    if c == ' ' then '_' else LowerChar(c)
  }

  /** `x.lower().replace(' ', '_')`. */
  function Snake(s: string): (r: string)
    ensures |r| == |s|
    ensures forall i :: 0 <= i < |s| ==> r[i] == SnakeChar(s[i])
    ensures forall i :: 0 <= i < |r| ==> !IsUpper(r[i]) && r[i] != ' '
  {
    seq(|s|, i requires 0 <= i < |s| => SnakeChar(s[i]))
  }

  /** The column-renaming rule shared by the position-registry table ("fjc_")
      and the judge-count pivot ("judge_count_"). */
  function ColumnName(prefix: string, name: string): (r: string)
    ensures |r| == |prefix| + |name|
    ensures r[..|prefix|] == prefix
    ensures r[|prefix|..] == Snake(name)
  {
    prefix + Snake(name)
  }

  /** The rule works character by character. */
  lemma SnakeAppend(a: string, b: string)
    ensures Snake(a + b) == Snake(a) + Snake(b)
  {
  }

  /** Text that is already lower-case and blank-free is left as it is. */
  lemma SnakeFixed(s: string)
    requires forall i :: 0 <= i < |s| ==> !IsUpper(s[i]) && s[i] != ' '
    ensures Snake(s) == s
  {
  }

  predicate NoUnderscore(s: string) {
    forall i :: 0 <= i < |s| ==> s[i] != '_'
  }

  /** Names that agree up to case get the same column. */
  lemma ColumnNameIgnoresCase(prefix: string, a: string, b: string)
    requires SameIgnoringCase(a, b)
    ensures ColumnName(prefix, a) == ColumnName(prefix, b)
  {
    assert |a| == |b| by { assert |Lower(a)| == |a| && |Lower(b)| == |b|; }
    forall i | 0 <= i < |a|
      ensures SnakeChar(a[i]) == SnakeChar(b[i])
    {
      assert Lower(a)[i] == Lower(b)[i];
      assert LowerChar(a[i]) == LowerChar(b[i]);
    }
    assert Snake(a) == Snake(b);
  }

  /** The renaming is injective on names whose lower-case forms differ, as
      long as the names contain no underscore of their own. */
  lemma ColumnNameInjective(prefix: string, a: string, b: string)
    requires NoUnderscore(a) && NoUnderscore(b)
    requires ColumnName(prefix, a) == ColumnName(prefix, b)
    ensures SameIgnoringCase(a, b)
  {
    assert Snake(a) == ColumnName(prefix, a)[|prefix|..];
    assert Snake(b) == ColumnName(prefix, b)[|prefix|..];
    assert |a| == |b| by { assert |Snake(a)| == |a| && |Snake(b)| == |b|; }
    forall i | 0 <= i < |a|
      ensures Lower(a)[i] == Lower(b)[i]
    {
      assert SnakeChar(a[i]) == SnakeChar(b[i]) by { assert Snake(a)[i] == Snake(b)[i]; }
      assert (a[i] == ' ') <==> (b[i] == ' ');
    }
  }

  /** Without the underscore restriction the rule does collide. */
  lemma ColumnNameCollision(prefix: string)
    ensures !SameIgnoringCase("court type", "court_type")
    ensures ColumnName(prefix, "Court Type") == ColumnName(prefix, "court_type")
  {
    assert Lower("court type")[5] == ' ';
    assert Lower("court_type")[5] == '_';
    assert Snake("Court Type") == "court_type";
    assert Snake("court_type") == "court_type";
  }

  // ---------------------------------------------------------------------------
  // Whitespace tokenising (`str.split()` with no separator)
  // ---------------------------------------------------------------------------

  /** The characters Python's `str.isspace` accepts, which are the separators
      of `str.split()`: the ASCII controls 9-13 and 28-31, the space, and the
      Unicode spaces and line/paragraph separators. */
  predicate IsSpace(c: char) {
    || c == ' ' || 9 <= c as int <= 13 || 28 <= c as int <= 31
    || c as int == 0x85 || c as int == 0xA0 || c as int == 0x1680
    || 0x2000 <= c as int <= 0x200A
    || c as int == 0x2028 || c as int == 0x2029 || c as int == 0x202F
    || c as int == 0x205F || c as int == 0x3000
  }

  predicate NoSpace(s: string) {
    forall k :: 0 <= k < |s| ==> !IsSpace(s[k])
  }

  /** First index at or after `i` that is not whitespace (or `|s|`). */
  function SkipSpaces(s: string, i: nat): (j: nat)
    requires i <= |s|
    ensures i <= j <= |s|
    ensures forall k :: i <= k < j ==> IsSpace(s[k])
    ensures j < |s| ==> !IsSpace(s[j])
    decreases |s| - i
  {
    if i == |s| || !IsSpace(s[i]) then i else SkipSpaces(s, i + 1)
  }

  /** First index at or after `i` that is whitespace (or `|s|`). */
  function WordEnd(s: string, i: nat): (j: nat)
    requires i <= |s|
    ensures i <= j <= |s|
    ensures forall k :: i <= k < j ==> !IsSpace(s[k])
    ensures j < |s| ==> IsSpace(s[j])
    decreases |s| - i
  {
    if i == |s| || IsSpace(s[i]) then i else WordEnd(s, i + 1)
  }

  /** `s.split()[0]`, or None when `s` holds only whitespace. */
  function FirstToken(s: string): (r: Option<string>)
    ensures r.None? <==> forall k :: 0 <= k < |s| ==> IsSpace(s[k])
    ensures r.Some? ==>
      && |r.value| > 0
      && NoSpace(r.value)
      && exists i :: TokenAt(s, i, r.value)
  {
    var i := SkipSpaces(s, 0);
    if i == |s| then None
    else
      var j := WordEnd(s, i);
      assert s[i..j][0] == s[i];
      assert TokenAt(s, i, s[i..j]);
      Some(s[i..j])
  }

  /** `w` occurs in `s` at `i`, preceded only by whitespace and followed by
      whitespace or the end of `s`. */
  predicate TokenAt(s: string, i: int, w: string) {
    && 0 <= i <= |s| - |w|
    && s[i..i + |w|] == w
    && (forall k :: 0 <= k < i ==> IsSpace(s[k]))
    && (i + |w| == |s| || IsSpace(s[i + |w|]))
  }

  /** A word followed by any whitespace character and any description is
      split back off. */
  lemma FirstTokenOfWord(w: string, sep: char, rest: string)
    requires |w| > 0 && NoSpace(w)
    requires IsSpace(sep)
    ensures FirstToken(w) == Some(w)
    ensures FirstToken(w + [sep] + rest) == Some(w)
  {
    assert SkipSpaces(w, 0) == 0;
    WordEndAt(w, 0, |w|);
    assert w[0..|w|] == w;
    var s := w + [sep] + rest;
    assert s[0] == w[0];
    assert SkipSpaces(s, 0) == 0;
    WordEndAt(s, 0, |w|);
    assert s[0..|w|] == w;
  }

  /** `WordEnd` stops exactly at the end of a space-free run. */
  lemma {:induction false} WordEndAt(s: string, i: nat, j: nat)
    requires i <= j <= |s|
    requires forall k :: i <= k < j ==> !IsSpace(s[k])
    requires j == |s| || IsSpace(s[j])
    ensures WordEnd(s, i) == j
    decreases j - i
  {
    if i < j {
      WordEndAt(s, i + 1, j);
    }
  }

  // ---------------------------------------------------------------------------
  // Decimal integers
  // ---------------------------------------------------------------------------

  /** An ASCII decimal digit. */
  predicate IsDigit(c: char) {
    '0' <= c <= '9'
  }

  predicate AllDigits(s: string) {
    forall k :: 0 <= k < |s| ==> IsDigit(s[k])
  }

  function DigitValue(c: char): nat
    requires IsDigit(c)
  {
    c as int - '0' as int
  }

  function DigitChar(d: nat): (c: char)
    requires d < 10
    ensures IsDigit(c) && DigitValue(c) == d
  {
    ('0' as int + d) as char
  }

  /** The value of a string of decimal digits, most significant first. */
  function DecimalValue(s: string): nat
    requires AllDigits(s)
  {
    if |s| == 0 then 0
    else DecimalValue(s[..|s| - 1]) * 10 + DigitValue(s[|s| - 1])
  }

  /** The decimal spelling of `n`, without leading zeros. */
  function Decimal(n: nat): (s: string)
    ensures |s| > 0 && AllDigits(s)
  {
    if n < 10 then [DigitChar(n)] else Decimal(n / 10) + [DigitChar(n % 10)]
  }

  /** Integer parsing of one token: only unsigned ASCII decimal digits are
      read; signs, underscores and other Unicode digits give no value. */
  function ParseNat(s: string): (r: Option<nat>)
    ensures r.Some? <==> |s| > 0 && AllDigits(s)
  {
    if |s| > 0 && AllDigits(s) then Some(DecimalValue(s)) else None
  }

  lemma {:induction false} DecimalRoundTrip(n: nat)
    ensures ParseNat(Decimal(n)) == Some(n)
    ensures DecimalValue(Decimal(n)) == n
  {
    if n >= 10 {
      DecimalRoundTrip(n / 10);
      var s := Decimal(n);
      assert s[..|s| - 1] == Decimal(n / 10);
      assert s[|s| - 1] == DigitChar(n % 10);
      assert DecimalValue(s) == (n / 10) * 10 + n % 10;
    }
  }

  lemma DecimalNoSpace(n: nat)
    ensures NoSpace(Decimal(n))
  {
  }
}
