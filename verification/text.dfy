/**
 * The string operations the services and pages use: trimming, whitespace removal,
 * the two case foldings (JavaScript's `toLowerCase()` and `toLocaleLowerCase('tr-TR')`),
 * upper-casing, substring search, first-index lookup and digit filters.
 *
 * Case folding is modelled on ASCII and on the Turkish letters Ç Ğ I İ Ö Ş Ü
 * (and their lower-case forms); every other character folds to itself.
 */
module Text {

  // ---------------------------------------------------------------------------
  // Whitespace

  /** JavaScript's `\s` class, restricted to ASCII whitespace and the no-break space. */
  predicate IsSpace(c: char) {
    c == ' ' || c == '\t' || c == '\n' || c == '\r' || c == '\U{000B}' || c == '\U{000C}' || c == '\U{00A0}'
  }

  /** `String.prototype.trimStart`: drops the leading whitespace. */
  function TrimStart(s: string): string {
    if s != [] && IsSpace(s[0]) then TrimStart(s[1..]) else s
  }

  /** `String.prototype.trimEnd`: drops the trailing whitespace. */
  function TrimEnd(s: string): string {
    if s != [] && IsSpace(s[|s| - 1]) then TrimEnd(s[..|s| - 1]) else s
  }

  /** `String.prototype.trim`. */
  function Trim(s: string): string {
    TrimEnd(TrimStart(s))
  }

  lemma {:induction false} TrimStartSpec(s: string)
    ensures var r := TrimStart(s);
      |r| <= |s| && r == s[|s| - |r|..] &&
      (forall i :: 0 <= i < |s| - |r| ==> IsSpace(s[i])) &&
      (r == [] || !IsSpace(r[0]))
  {
    if s != [] && IsSpace(s[0]) {
      var t := s[1..];
      TrimStartSpec(t);
      var r := TrimStart(t);
      assert TrimStart(s) == r;
      assert s[|s| - |r|..] == t[|t| - |r|..];
      forall i | 0 <= i < |s| - |r| ensures IsSpace(s[i]) {
        if i > 0 { assert s[i] == t[i - 1]; }
      }
    }
  }

  lemma {:induction false} TrimEndSpec(s: string)
    ensures var r := TrimEnd(s);
      |r| <= |s| && r == s[..|r|] &&
      (forall i :: |r| <= i < |s| ==> IsSpace(s[i])) &&
      (r == [] || !IsSpace(r[|r| - 1]))
  {
    if s != [] && IsSpace(s[|s| - 1]) {
      TrimEndSpec(s[..|s| - 1]);
    }
  }

  /** `r` is `s[lo..]` up to its end, with only whitespace around it in `s`. */
  predicate SpaceAround(s: string, r: string, lo: int) {
    0 <= lo <= |s| - |r| && r == s[lo..lo + |r|] &&
    (forall i :: 0 <= i < lo ==> IsSpace(s[i])) &&
    (forall i :: lo + |r| <= i < |s| ==> IsSpace(s[i]))
  }

  /**
   * `trim()` keeps a contiguous part of the string, drops only whitespace around it and
   * leaves no whitespace at either end.
   */
  lemma TrimSpec(s: string)
    ensures exists lo :: SpaceAround(s, Trim(s), lo)
    ensures var r := Trim(s); r == [] || (!IsSpace(r[0]) && !IsSpace(r[|r| - 1]))
  {
    var m := TrimStart(s);
    TrimStartSpec(s);
    TrimEndSpec(m);
    var r := Trim(s);
    var lo := |s| - |m|;
    assert forall i :: lo + |r| <= i < |s| ==> s[i] == m[i - lo];
    assert SpaceAround(s, r, lo);
  }

  /** `s.replace(/\s/g, '')`: every whitespace character removed, the rest kept in order. */
  function StripSpaces(s: string): (r: string)
    ensures |r| <= |s|
    ensures forall i :: 0 <= i < |r| ==> !IsSpace(r[i])
    ensures (forall i :: 0 <= i < |s| ==> !IsSpace(s[i])) ==> r == s
  {
    if s == [] then []
    else if IsSpace(s[0]) then StripSpaces(s[1..])
    else [s[0]] + StripSpaces(s[1..])
  }

  /**
   * `StripSpaces` is a filter: it works piece by piece and keeps exactly the non-space
   * characters, so the result is the input's non-space characters in their order.
   */
  lemma {:induction false} StripSpacesIsFilter(a: string, b: string)
    ensures StripSpaces(a + b) == StripSpaces(a) + StripSpaces(b)
    ensures |a| == 1 ==> StripSpaces(a) == if IsSpace(a[0]) then [] else a
  {
    if a == [] {
      assert a + b == b;
    } else {
      StripSpacesIsFilter(a[1..], b);
      StripSpacesCons(a, b);
    }
  }

  /** One step of `StripSpacesIsFilter`: the head of `a` is kept or dropped in both places alike. */
  lemma StripSpacesCons(a: string, b: string)
    requires a != []
    requires StripSpaces(a[1..] + b) == StripSpaces(a[1..]) + StripSpaces(b)
    ensures StripSpaces(a + b) == StripSpaces(a) + StripSpaces(b)
    ensures |a| == 1 ==> StripSpaces(a) == if IsSpace(a[0]) then [] else a
  {
    StripSpacesConcatHead(a, b);
    var head := if IsSpace(a[0]) then [] else [a[0]];
    assert StripSpaces(a) == head + StripSpaces(a[1..]);
    assert head + (StripSpaces(a[1..]) + StripSpaces(b)) == (head + StripSpaces(a[1..])) + StripSpaces(b);
    if |a| == 1 {
      assert a[1..] == [];
    }
  }

  /** `StripSpaces` of `a + b` decides on the head of `a` first. */
  lemma StripSpacesConcatHead(a: string, b: string)
    requires a != []
    ensures StripSpaces(a + b) == (if IsSpace(a[0]) then [] else [a[0]]) + StripSpaces(a[1..] + b)
  {
    assert (a + b)[0] == a[0];
    assert (a + b)[1..] == a[1..] + b;
  }

  // ---------------------------------------------------------------------------
  // Case folding

  /** `toLowerCase()` of one character; `İ` becomes the two characters `i` + combining dot above. */
  function LowerChar(c: char): string {
    if 'A' <= c <= 'Z' then [(c as int + 32) as char]
    else if c == '\U{00C7}' then ['\U{00E7}']        // Ç -> ç
    else if c == '\U{011E}' then ['\U{011F}']        // Ğ -> ğ
    else if c == '\U{00D6}' then ['\U{00F6}']        // Ö -> ö
    else if c == '\U{015E}' then ['\U{015F}']        // Ş -> ş
    else if c == '\U{00DC}' then ['\U{00FC}']        // Ü -> ü
    else if c == '\U{0130}' then ['i', '\U{0307}']   // İ -> i̇
    else [c]
  }

  /** JavaScript's locale-independent `toLowerCase()`. */
  function Lower(s: string): string {
    if s == [] then [] else LowerChar(s[0]) + Lower(s[1..])
  }

  /** `toLocaleLowerCase('tr-TR')` of one character: dotted and dotless i are kept apart. */
  function LowerTrChar(c: char): char {
    if c == 'I' then '\U{0131}'                    // I -> ı
    else if c == '\U{0130}' then 'i'               // İ -> i
    else if 'A' <= c <= 'Z' then (c as int + 32) as char
    else if c == '\U{00C7}' then '\U{00E7}'
    else if c == '\U{011E}' then '\U{011F}'
    else if c == '\U{00D6}' then '\U{00F6}'
    else if c == '\U{015E}' then '\U{015F}'
    else if c == '\U{00DC}' then '\U{00FC}'
    else c
  }

  /** `toLocaleLowerCase('tr-TR')`: a character-by-character map. */
  function LowerTr(s: string): (r: string)
    ensures |r| == |s| && forall i :: 0 <= i < |s| ==> r[i] == LowerTrChar(s[i])
  {
    seq(|s|, i requires 0 <= i < |s| => LowerTrChar(s[i]))
  }

  /** JavaScript's locale-independent `toUpperCase()` of one character. */
  function UpperChar(c: char): char {
    if 'a' <= c <= 'z' then (c as int - 32) as char
    else if c == '\U{00E7}' then '\U{00C7}'
    else if c == '\U{011F}' then '\U{011E}'
    else if c == '\U{00F6}' then '\U{00D6}'
    else if c == '\U{015F}' then '\U{015E}'
    else if c == '\U{00FC}' then '\U{00DC}'
    else if c == '\U{0131}' then 'I'               // ı -> I
    else c
  }

  /** `toUpperCase()`: a character-by-character map. */
  function Upper(s: string): (r: string)
    ensures |r| == |s| && forall i :: 0 <= i < |s| ==> r[i] == UpperChar(s[i])
  {
    seq(|s|, i requires 0 <= i < |s| => UpperChar(s[i]))
  }

  /** `toLocaleUpperCase('tr-TR')` of one character: `i` becomes the dotted `İ`. */
  function UpperTrChar(c: char): char {
    if c == 'i' then '\U{0130}' else UpperChar(c)
  }

  /** `toLocaleUpperCase('tr-TR')`: a character-by-character map. */
  function UpperTr(s: string): (r: string)
    ensures |r| == |s| && forall i :: 0 <= i < |s| ==> r[i] == UpperTrChar(s[i])
  {
    seq(|s|, i requires 0 <= i < |s| => UpperTrChar(s[i]))
  }

  // ---------------------------------------------------------------------------
  // Searching

  /** `s.startsWith(p)`. */
  predicate IsPrefix(p: string, s: string) {
    |p| <= |s| && s[..|p|] == p
  }

  /** `sub` occurs in `s` starting at position `i`. */
  predicate OccursAt(s: string, sub: string, i: int) {
    0 <= i <= |s| - |sub| && s[i..i + |sub|] == sub
  }

  /** `s.includes(sub)`: `sub` occurs in `s` at some position. */
  predicate Contains(s: string, sub: string)
    decreases |s|
    ensures Contains(s, sub) <==> exists i :: OccursAt(s, sub, i)
  {
    if IsPrefix(sub, s) then
      assert OccursAt(s, sub, 0);
      true
    else if |s| == 0 then
      false
    else
      assert forall i :: OccursAt(s[1..], sub, i) <==> OccursAt(s, sub, i + 1) by {
        forall i ensures OccursAt(s[1..], sub, i) <==> OccursAt(s, sub, i + 1) {
          if 0 <= i <= |s| - 1 - |sub| {
            assert s[1..][i..i + |sub|] == s[i + 1..i + 1 + |sub|];
          }
        }
      }
      assert !OccursAt(s, sub, 0);
      assert (exists i :: OccursAt(s, sub, i)) ==> exists i :: OccursAt(s[1..], sub, i) by {
        if exists i :: OccursAt(s, sub, i) {
          var i :| OccursAt(s, sub, i);
          assert OccursAt(s[1..], sub, i - 1);
        }
      }
      Contains(s[1..], sub)
  }

  /** `xs.indexOf(x)`: the first position holding `x`, or -1. */
  function IndexOf<T(==)>(xs: seq<T>, x: T): (r: int)
    ensures -1 <= r < |xs|
    ensures r == -1 <==> x !in xs
    ensures r >= 0 ==> xs[r] == x && x !in xs[..r]
  {
    if xs == [] then -1
    else if xs[0] == x then 0
    else
      var k := IndexOf(xs[1..], x);
      assert xs[1..][..k + 1] == xs[1..k + 2] by { assert k >= 0 ==> k + 2 <= |xs|; }
      if k == -1 then -1 else k + 1
  }

  // ---------------------------------------------------------------------------
  // Digits

  predicate IsDigit(c: char) {
    '0' <= c <= '9'
  }

  predicate AllDigits(s: string) {
    forall i :: 0 <= i < |s| ==> IsDigit(s[i])
  }

  /** The regular expression `^\d+$`: at least one character, all of them digits. */
  predicate DigitString(s: string) {
    |s| > 0 && AllDigits(s)
  }

  /** `s.replace(/\D/g, '')`: the digits of `s`, in order. */
  function KeepDigits(s: string): (r: string)
    ensures |r| <= |s| && AllDigits(r)
    ensures AllDigits(s) ==> r == s
  {
    if s == [] then []
    else if IsDigit(s[0]) then [s[0]] + KeepDigits(s[1..])
    else KeepDigits(s[1..])
  }

  /**
   * `KeepDigits` is a filter: it works piece by piece and keeps exactly the digits, so the
   * result is the input's digits in their order.
   */
  lemma {:induction false} KeepDigitsIsFilter(a: string, b: string)
    ensures KeepDigits(a + b) == KeepDigits(a) + KeepDigits(b)
    ensures |a| == 1 ==> KeepDigits(a) == if IsDigit(a[0]) then a else []
  {
    if a == [] {
      assert a + b == b;
    } else {
      KeepDigitsIsFilter(a[1..], b);
      KeepDigitsCons(a, b);
    }
  }

  /** One step of `KeepDigitsIsFilter`: the head of `a` is kept or dropped in both places alike. */
  lemma KeepDigitsCons(a: string, b: string)
    requires a != []
    requires KeepDigits(a[1..] + b) == KeepDigits(a[1..]) + KeepDigits(b)
    ensures KeepDigits(a + b) == KeepDigits(a) + KeepDigits(b)
    ensures |a| == 1 ==> KeepDigits(a) == if IsDigit(a[0]) then a else []
  {
    KeepDigitsConcatHead(a, b);
    var head := if IsDigit(a[0]) then [a[0]] else [];
    assert KeepDigits(a) == head + KeepDigits(a[1..]);
    assert head + (KeepDigits(a[1..]) + KeepDigits(b)) == (head + KeepDigits(a[1..])) + KeepDigits(b);
    if |a| == 1 {
      assert a[1..] == [];
    }
  }

  /** `KeepDigits` of `a + b` decides on the head of `a` first. */
  lemma KeepDigitsConcatHead(a: string, b: string)
    requires a != []
    ensures KeepDigits(a + b) == (if IsDigit(a[0]) then [a[0]] else []) + KeepDigits(a[1..] + b)
  {
    assert (a + b)[0] == a[0];
    assert (a + b)[1..] == a[1..] + b;
  }

  /** `KeepDigits` drops no digit: a character is in the result exactly when it is a digit of the input. */
  lemma {:induction false} KeepDigitsMembers(s: string)
    ensures forall c :: c in KeepDigits(s) <==> c in s && IsDigit(c)
  {
    if s != [] {
      KeepDigitsMembers(s[1..]);
      assert s == [s[0]] + s[1..];
    }
  }

  /** `s.slice(0, n)`. */
  function Take(s: string, n: nat): (r: string)
    ensures |r| == if |s| <= n then |s| else n
    ensures r == s[..|r|]
  {
    if |s| <= n then s else s[..n]
  }
}
