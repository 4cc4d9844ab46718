/**
 * The string helpers that text_line.cpp and variable_utility.cpp each define:
 * `replace_string`, `pad_numbers`, plus the pieces of the C++ standard library
 * they lean on (`std::to_string`, `std::string::find`, ASCII `toupper`/`tolower`).
 */
module TextUtil {
  import opened Wrappers

  // ---------------------------------------------------------------------------
  // Decimal text (std::to_string on an int)
  // ---------------------------------------------------------------------------

  predicate IsDigit(c: char) {
    '0' <= c <= '9'
  }

  predicate AllDigits(s: string) {
    forall i :: 0 <= i < |s| ==> IsDigit(s[i])
  }

  function DigitChar(d: nat): (c: char)
    requires d < 10
    ensures IsDigit(c)
  {
    ('0' as int + d) as char
  }

  function DigitValue(c: char): (d: nat)
    requires IsDigit(c)
    ensures d < 10 && DigitChar(d) == c
  {
    c as int - '0' as int
  }

  /** The decimal digits of `n`, most significant first, without leading zeros. */
  function NatToString(n: nat): (s: string)
    ensures |s| >= 1 && AllDigits(s)
    ensures n > 0 ==> s[0] != '0'
    decreases n
  {
    if n < 10 then [DigitChar(n)] else NatToString(n / 10) + [DigitChar(n % 10)]
  }

  /** `std::to_string(int)`: a leading '-' for negative numbers. */
  function IntToString(n: int): (s: string)
    ensures 0 <= n ==> s == NatToString(n)
    ensures n < 0 ==> s == "-" + NatToString(-n)
  {
    if n < 0 then "-" + NatToString(-n) else NatToString(n)
  }

  /** The number a string of decimal digits denotes. */
  function DigitsValue(s: string): nat
    requires AllDigits(s)
  {
    if s == [] then 0 else DigitsValue(s[..|s| - 1]) * 10 + DigitValue(s[|s| - 1])
  }

  /** Reading back the decimal text of `n` gives `n`. */
  lemma {:induction false} NatToStringRoundTrip(n: nat)
    ensures DigitsValue(NatToString(n)) == n
    decreases n
  {
    if n >= 10 {
      NatToStringRoundTrip(n / 10);
      var s := NatToString(n);
      assert s[..|s| - 1] == NatToString(n / 10);
    }
  }

  /** One digit below ten, two digits from ten to ninety-nine. */
  lemma NatToStringLength(n: nat)
    ensures n < 10 ==> |NatToString(n)| == 1
    ensures 10 <= n < 100 ==> NatToString(n) == [DigitChar(n / 10), DigitChar(n % 10)]
  {
  }

  // ---------------------------------------------------------------------------
  // pad_numbers
  // ---------------------------------------------------------------------------

  /** `pad_numbers`: a "0" in front of every number below ten, then `std::to_string`. */
  function PadNumbers(n: int): string
  {
    (if n < 10 then "0" else "") + IntToString(n)
  }

  /**
   * For 0..99 the padded text is exactly two decimal digits that read back as the
   * number: "0" and the digit below ten, the plain decimal from ten on.
   */
  lemma PadNumbersTwoDigits(n: int)
    requires 0 <= n < 100
    ensures |PadNumbers(n)| == 2 && AllDigits(PadNumbers(n))
    ensures DigitsValue(PadNumbers(n)) == n
    ensures n < 10 ==> PadNumbers(n) == ['0', DigitChar(n)]
    ensures 10 <= n ==> PadNumbers(n) == NatToString(n)
  {
    NatToStringLength(n);
    var p := PadNumbers(n);
    if n < 10 {
      assert p == ['0', DigitChar(n)];
      assert p[..1] == ['0'];
      assert DigitsValue(p[..1]) == DigitsValue([]) * 10 + DigitValue('0');
    } else {
      NatToStringRoundTrip(n);
    }
  }

  /** From ten on nothing is padded: the text is `std::to_string`'s. */
  lemma PadNumbersPlain(n: int)
    requires 10 <= n
    ensures PadNumbers(n) == NatToString(n) && |PadNumbers(n)| >= 2
  {
    if n >= 10 {
      assert NatToString(n) == NatToString(n / 10) + [DigitChar(n % 10)];
    }
  }

  // ---------------------------------------------------------------------------
  // std::string::find
  // ---------------------------------------------------------------------------

  /** `search` occurs in `s` starting at index `i`. */
  predicate OccursAt(s: string, search: string, i: nat) {
    i + |search| <= |s| && s[i..i + |search|] == search
  }

  /** `s.find(search, from)`: the first occurrence at or after `from`, None for npos. */
  function FindFrom(s: string, search: string, from: nat): (r: Option<nat>)
    ensures r.Some? ==> from <= r.value && OccursAt(s, search, r.value)
    ensures r.Some? ==> forall k :: from <= k < r.value ==> !OccursAt(s, search, k)
    ensures r.None? ==> forall k :: from <= k ==> !OccursAt(s, search, k)
    decreases |s| - from
  {
    if from + |search| > |s| then None
    else if OccursAt(s, search, from) then Some(from)
    else FindFrom(s, search, from + 1)
  }

  /** `s.find(search) != npos`. */
  predicate Contains(s: string, search: string) {
    FindFrom(s, search, 0).Some?
  }

  lemma ContainsIff(s: string, search: string)
    ensures Contains(s, search) <==> exists k :: OccursAt(s, search, k)
  {
  }

  // ---------------------------------------------------------------------------
  // replace_string
  // ---------------------------------------------------------------------------

  /**
   * Reference definition of `replace_string`: scanning left to right, every
   * occurrence of `search` is replaced by `rep`; text that a replacement inserts
   * is never scanned again, so occurrences never overlap.
   */
  function ReplaceAll(s: string, search: string, rep: string): string
    requires |search| > 0
    decreases |s|
  {
    if |s| < |search| then s
    else if s[..|search|] == search then rep + ReplaceAll(s[|search|..], search, rep)
    else [s[0]] + ReplaceAll(s[1..], search, rep)
  }

  /** A suffix with no occurrence of `search` is left as it is. */
  lemma {:induction false} ReplaceAllNoMatch(s: string, search: string, rep: string, from: nat)
    requires |search| > 0 && from <= |s|
    requires forall k :: from <= k ==> !OccursAt(s, search, k)
    ensures ReplaceAll(s[from..], search, rep) == s[from..]
    decreases |s| - from
  {
    var t := s[from..];
    if |t| >= |search| {
      assert !OccursAt(s, search, from);
      assert t[..|search|] == s[from..from + |search|];
      assert t[1..] == s[from + 1..];
      ReplaceAllNoMatch(s, search, rep, from + 1);
    }
  }

  /** A source with no occurrence of `search` comes back unchanged. */
  lemma ReplaceAllAbsent(s: string, search: string, rep: string)
    requires |search| > 0 && !Contains(s, search)
    ensures ReplaceAll(s, search, rep) == s
  {
    ReplaceAllNoMatch(s, search, rep, 0);
    assert s[0..] == s;
  }

  /**
   * When the first occurrence at or after `from` is at `p`, the suffix from `from`
   * becomes the untouched text before `p`, then `rep`, then the rest replaced.
   */
  lemma {:induction false} ReplaceAllFirst(s: string, search: string, rep: string, from: nat, p: nat)
    requires |search| > 0 && from <= p && OccursAt(s, search, p)
    requires forall k :: from <= k < p ==> !OccursAt(s, search, k)
    ensures ReplaceAll(s[from..], search, rep)
            == s[from..p] + rep + ReplaceAll(s[p + |search|..], search, rep)
    decreases p - from
  {
    if from == p {
      ReplaceAllAt(s, search, rep, p);
      assert s[from..p] == [];
    } else {
      ReplaceAllSkip(s, search, rep, from);
      ReplaceAllFirst(s, search, rep, from + 1, p);
      var tail := ReplaceAll(s[p + |search|..], search, rep);
      assert s[from..p] == [s[from]] + s[from + 1..p];
      assert [s[from]] + (s[from + 1..p] + rep + tail) == s[from..p] + rep + tail;
    }
  }

  /** An occurrence at `p` is replaced and the scan resumes after it. */
  lemma ReplaceAllAt(s: string, search: string, rep: string, p: nat)
    requires |search| > 0 && OccursAt(s, search, p)
    ensures ReplaceAll(s[p..], search, rep) == rep + ReplaceAll(s[p + |search|..], search, rep)
  {
    var t := s[p..];
    assert t[..|search|] == s[p..p + |search|];
    assert t[|search|..] == s[p + |search|..];
  }

  /** No occurrence at `i` (with room for one): the character is copied and the scan moves on. */
  lemma ReplaceAllSkip(s: string, search: string, rep: string, i: nat)
    requires |search| > 0 && i + |search| <= |s| && !OccursAt(s, search, i)
    ensures ReplaceAll(s[i..], search, rep) == [s[i]] + ReplaceAll(s[i + 1..], search, rep)
  {
    var t := s[i..];
    assert t[..|search|] == s[i..i + |search|];
    assert t[1..] == s[i + 1..];
  }

  /** Splicing `rep` over `result[p..p + len]`, cut where the next search resumes. */
  lemma Splice(result: string, rep: string, from: nat, p: nat, len: nat)
    requires from <= p && p + len <= |result|
    ensures var next := result[..p] + rep + result[p + len..];
      && p + |rep| <= |next|
      && next[..p + |rep|] == result[..from] + (result[from..p] + rep)
      && next[p + |rep|..] == result[p + len..]
  {
  }

  /**
   * One pass of the `replace_string` loop: replacing the first occurrence at or
   * after `from` keeps "processed prefix + rest replaced" equal to the full result.
   */
  lemma ReplaceStep(source: string, result: string, search: string, rep: string, from: nat, p: nat)
    requires |search| > 0 && from <= p && OccursAt(result, search, p)
    requires forall k :: from <= k < p ==> !OccursAt(result, search, k)
    requires ReplaceAll(source, search, rep) == result[..from] + ReplaceAll(result[from..], search, rep)
    ensures p + |rep| <= |result[..p] + rep + result[p + |search|..]|
    ensures ReplaceAll(source, search, rep)
            == (result[..p] + rep + result[p + |search|..])[..p + |rep|]
               + ReplaceAll((result[..p] + rep + result[p + |search|..])[p + |rep|..], search, rep)
  {
    var next := result[..p] + rep + result[p + |search|..];
    Splice(result, rep, from, p, |search|);
    ReplacedThrough(source, result, search, rep, from, p);
    assert next[..p + |rep|] == result[..from] + (result[from..p] + rep);
    assert next[p + |rep|..] == result[p + |search|..];
  }

  /** The full result is the processed prefix, the text up to the match, the replacement, then the rest replaced. */
  lemma ReplacedThrough(source: string, result: string, search: string, rep: string, from: nat, p: nat)
    requires |search| > 0 && from <= p && OccursAt(result, search, p)
    requires forall k :: from <= k < p ==> !OccursAt(result, search, k)
    requires ReplaceAll(source, search, rep) == result[..from] + ReplaceAll(result[from..], search, rep)
    ensures ReplaceAll(source, search, rep)
            == (result[..from] + (result[from..p] + rep)) + ReplaceAll(result[p + |search|..], search, rep)
  {
    var tail := ReplaceAll(result[p + |search|..], search, rep);
    ReplaceAllFirst(result, search, rep, from, p);
    assert result[..from] + (result[from..p] + rep + tail) == (result[..from] + (result[from..p] + rep)) + tail;
  }

  /**
   * `replace_string`, which rewrites its source in place: find the first
   * occurrence, replace it, and search again after the inserted text.
   * `search` must not be empty: with an empty search `find` keeps matching and
   * the source loop never ends.
   */
  method ReplaceString(source: string, search: string, replace: string) returns (result: string)
    requires |search| > 0
    ensures result == ReplaceAll(source, search, replace)
  {
    result := source;
    ghost var from: nat := 0;
    var position := FindFrom(result, search, 0);
    while position.Some?
      invariant from <= |result|
      invariant position.Some? ==> from <= position.value && OccursAt(result, search, position.value)
      invariant position.Some? ==> forall k :: from <= k < position.value ==> !OccursAt(result, search, k)
      invariant position.None? ==> forall k :: from <= k ==> !OccursAt(result, search, k)
      invariant ReplaceAll(source, search, replace)
                == result[..from] + ReplaceAll(result[from..], search, replace)
      decreases |result| - from
    {
      var p := position.value;
      ReplaceStep(source, result, search, replace, from, p);
      result := result[..p] + replace + result[p + |search|..];
      from := p + |replace|;
      position := FindFrom(result, search, p + |replace|);
    }
    ReplaceAllNoMatch(result, search, replace, from);
    assert result[..from] + result[from..] == result;
  }

  /** Occurrences are consumed left to right without overlap: "aaa" with "aa" -> "b" is "ba". */
  lemma ReplaceAllNoOverlap()
    ensures ReplaceAll("aaa", "aa", "b") == "ba"
  {
    assert "aaa"[..2] == "aa";
    assert "aaa"[2..] == "a";
  }

  /** Inserted text is never scanned again: "{x}" with "{x}" -> "{x}{x}" stops after one pass. */
  lemma ReplaceAllNoRescan()
    ensures ReplaceAll("{x}", "{x}", "{x}{x}") == "{x}{x}"
  {
    assert "{x}"[..3] == "{x}";
    assert "{x}"[3..] == "";
  }

  // ---------------------------------------------------------------------------
  // ASCII case mapping (toupper / tolower in the "C" locale)
  // ---------------------------------------------------------------------------

  function ToUpper(c: char): char {
    if 'a' <= c <= 'z' then (c as int - 32) as char else c
  }

  function ToLower(c: char): char {
    if 'A' <= c <= 'Z' then (c as int + 32) as char else c
  }

  function Lower(s: string): (r: string)
    ensures |r| == |s| && forall i :: 0 <= i < |s| ==> r[i] == ToLower(s[i])
  {
    seq(|s|, i requires 0 <= i < |s| => ToLower(s[i]))
  }

  /** `strcasecmp(a, b) == 0`: equal lengths and equal characters after `tolower`. */
  predicate EqualsIgnoreCase(a: string, b: string) {
    Lower(a) == Lower(b)
  }

  lemma ToLowerOfCase(c: char)
    ensures ToLower(ToUpper(c)) == ToLower(c)
    ensures ToLower(ToLower(c)) == ToLower(c)
  {
  }
}
