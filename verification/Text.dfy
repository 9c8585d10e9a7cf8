/** Strings as the source handles them: trimming, ASCII case mapping, substring tests. */
module Text {

  /** White space and line terminators removed by String.prototype.trim (section 22.1.3.32 of ECMA-262). */
  predicate IsSpace(c: char) {
    || '\U{0009}' <= c <= '\U{000D}' || c == ' ' || c == '\U{00A0}' || c == '\U{1680}'
    || '\U{2000}' <= c <= '\U{200A}' || c == '\U{2028}' || c == '\U{2029}' || c == '\U{202F}'
    || c == '\U{205F}' || c == '\U{3000}' || c == '\U{FEFF}'
  }

  /** One by one: TAB to CR, SP, NBSP, ZWNBSP, LS, PS and the other separators of Unicode category Zs. */
  lemma SpacesAre(c: char)
    ensures IsSpace(c) <==> c in {
      '\U{0009}', '\U{000A}', '\U{000B}', '\U{000C}', '\U{000D}', ' ', '\U{00A0}', '\U{1680}', '\U{2000}', '\U{2001}', '\U{2002}',
      '\U{2003}', '\U{2004}', '\U{2005}', '\U{2006}', '\U{2007}', '\U{2008}', '\U{2009}', '\U{200A}', '\U{2028}', '\U{2029}',
      '\U{202F}', '\U{205F}', '\U{3000}', '\U{FEFF}'}
  {
  }

  function TrimStart(s: string, drop: char -> bool): (r: string)
    ensures r == "" || !drop(r[0])
    ensures s == "" || !drop(s[0]) ==> r == s
  {
    if s != "" && drop(s[0]) then TrimStart(s[1..], drop) else s
  }

  function TrimEnd(s: string, drop: char -> bool): (r: string)
    ensures r == "" || !drop(r[|r| - 1])
    ensures s == "" || !drop(s[|s| - 1]) ==> r == s
    ensures r <= s
  {
    if s != "" && drop(s[|s| - 1]) then TrimEnd(s[..|s| - 1], drop) else s
  }

  /** Neither end of the string is dropped. */
  predicate Tight(s: string, drop: char -> bool) { s == "" || (!drop(s[0]) && !drop(s[|s| - 1])) }

  function TrimBy(s: string, drop: char -> bool): (r: string)
    ensures Tight(r, drop)
    ensures Tight(s, drop) ==> r == s
  {
    var t := TrimStart(s, drop);
    TrimEnd(t, drop)
  }

  function Trim(s: string): (r: string)
    ensures Tight(r, IsSpace)
    ensures Tight(s, IsSpace) ==> r == s
  {
    TrimBy(s, IsSpace)
  }

  /** SQL TRIM removes only the space character. */
  function SqlTrim(s: string): (r: string)
    ensures Tight(r, c => c == ' ')
    ensures Tight(s, c => c == ' ') ==> r == s
  {
    TrimBy(s, c => c == ' ')
  }

  function LowerChar(c: char): char { if 'A' <= c <= 'Z' then c + 32 as char else c }

  function UpperChar(c: char): char { if 'a' <= c <= 'z' then c - 32 as char else c }

  function Lower(s: string): (r: string)
    ensures |r| == |s|
  {
    seq(|s|, i requires 0 <= i < |s| => LowerChar(s[i]))
  }

  function Upper(s: string): (r: string)
    ensures |r| == |s|
  {
    seq(|s|, i requires 0 <= i < |s| => UpperChar(s[i]))
  }

  lemma CaseMaps(s: string)
    ensures Lower(Lower(s)) == Lower(s) == Lower(Upper(s))
    ensures Upper(Upper(s)) == Upper(s) == Upper(Lower(s))
  {
    assert Lower(Lower(s)) == Lower(s);
    assert Lower(Upper(s)) == Lower(s);
    assert Upper(Lower(s)) == Upper(s);
  }

  lemma LowerKeepsTight(s: string, drop: char -> bool)
    requires forall c :: drop(c) == drop(LowerChar(c))
    ensures Tight(Lower(s), drop) == Tight(s, drop)
  {
  }

  predicate Contains(s: string, part: string) {
    part <= s || (s != "" && Contains(s[1..], part))
  }

  lemma {:induction false} ContainsFirst(s: string, part: string)
    requires Contains(s, part) && part != ""
    ensures part[0] in s
    decreases |s|
  {
    if part <= s { assert s[0] == part[0]; } else { ContainsFirst(s[1..], part); }
  }

  lemma {:induction false} ContainsBehind(s: string, k: nat, part: string)
    requires k <= |s| && Contains(s[k..], part)
    ensures Contains(s, part)
    decreases k
  {
    if k > 0 {
      assert s[1..][k - 1..] == s[k..];
      ContainsBehind(s[1..], k - 1, part);
    } else {
      assert s[0..] == s;
    }
  }

  /** The two characters stand next to each other somewhere. */
  predicate HasPair(s: string, a: char, b: char) { exists i :: 0 <= i < |s| - 1 && s[i] == a && s[i + 1] == b }

  lemma {:induction false} ContainsPair(s: string, part: string)
    requires Contains(s, part) && |part| >= 2
    ensures HasPair(s, part[0], part[1])
    decreases |s|
  {
    if part <= s {
      assert s[0] == part[0] && s[0 + 1] == part[1];
    } else {
      ContainsPair(s[1..], part);
      var i :| 0 <= i < |s[1..]| - 1 && s[1..][i] == part[0] && s[1..][i + 1] == part[1];
      assert s[i + 1] == part[0] && s[i + 1 + 1] == part[1];
    }
  }

  // ---------------------------------------------------------------- SQL patterns

  /** LIKE's `_` stands for any one character. */
  predicate Fits(s: string, part: string) { |part| <= |s| && forall i :: 0 <= i < |part| ==> part[i] == '_' || s[i] == part[i] }

  /** LIKE '%part%' */
  predicate LikeContains(s: string, part: string) { Fits(s, part) || (s != "" && LikeContains(s[1..], part)) }

  lemma {:induction false} LikeWithoutWildcard(s: string, part: string)
    requires '_' !in part
    ensures LikeContains(s, part) <==> Contains(s, part)
    decreases |s|
  {
    assert Fits(s, part) <==> part <= s;
    if s != "" { LikeWithoutWildcard(s[1..], part); }
  }

  /** What fits a pattern with `part` at its end contains `part`. */
  lemma {:induction false} LikeSuffix(s: string, lead: string, part: string)
    requires LikeContains(s, lead + part) && '_' !in part
    ensures Contains(s, part)
    decreases |s|
  {
    if Fits(s, lead + part) {
      forall i | 0 <= i < |part| ensures s[|lead|..][i] == part[i] { assert (lead + part)[|lead| + i] == part[i]; }
      assert part <= s[|lead|..];
      ContainsBehind(s, |lead|, part);
    } else {
      LikeSuffix(s[1..], lead, part);
    }
  }

  // ---------------------------------------------------------------- what trimming yields

  predicate AllDropped(s: string, drop: char -> bool) { forall i :: 0 <= i < |s| ==> drop(s[i]) }

  lemma {:induction false} TrimStartDrops(s: string, drop: char -> bool) returns (i: nat)
    ensures i <= |s| && TrimStart(s, drop) == s[i..] && AllDropped(s[..i], drop)
    decreases |s|
  {
    if s != "" && drop(s[0]) {
      var j := TrimStartDrops(s[1..], drop);
      i := j + 1;
      assert s[i..] == s[1..][j..];
      assert s[..i] == [s[0]] + s[1..][..j];
    } else {
      i := 0;
    }
  }

  lemma {:induction false} TrimEndDrops(s: string, drop: char -> bool) returns (j: nat)
    ensures j <= |s| && TrimEnd(s, drop) == s[..j] && AllDropped(s[j..], drop)
    decreases |s|
  {
    if s != "" && drop(s[|s| - 1]) {
      j := TrimEndDrops(s[..|s| - 1], drop);
      assert s[j..] == s[..|s| - 1][j..] + [s[|s| - 1]];
    } else {
      j := |s|;
    }
  }

  /** Trimming cuts a dropped prefix and a dropped suffix. */
  lemma TrimDrops(s: string, drop: char -> bool) returns (i: nat, j: nat)
    ensures i <= j <= |s| && TrimBy(s, drop) == s[i..j]
    ensures AllDropped(s[..i], drop) && AllDropped(s[j..], drop)
  {
    i := TrimStartDrops(s, drop);
    var k := TrimEndDrops(s[i..], drop);
    j := i + k;
    assert s[i..][..k] == s[i..j] && s[i..][k..] == s[j..];
  }

  lemma {:induction false} TrimStartSkips(s: string, drop: char -> bool, i: nat)
    requires i <= |s| && AllDropped(s[..i], drop)
    ensures TrimStart(s, drop) == TrimStart(s[i..], drop)
    decreases i
  {
    if i > 0 {
      assert s[..i][0] == s[0];
      assert s[1..][..i - 1] == s[..i][1..];
      TrimStartSkips(s[1..], drop, i - 1);
      assert s[1..][i - 1..] == s[i..];
    } else {
      assert s[0..] == s;
    }
  }

  lemma {:induction false} TrimEndSkips(s: string, drop: char -> bool, j: nat)
    requires j <= |s| && AllDropped(s[j..], drop)
    ensures TrimEnd(s, drop) == TrimEnd(s[..j], drop)
    decreases |s| - j
  {
    if j < |s| {
      assert s[j..][|s| - 1 - j] == s[|s| - 1];
      assert s[..|s| - 1][j..] == s[j..][..|s| - 1 - j];
      TrimEndSkips(s[..|s| - 1], drop, j);
      assert s[..|s| - 1][..j] == s[..j];
    } else {
      assert s[..j] == s;
    }
  }

  lemma TightEndStays(t: string, drop: char -> bool, n: nat)
    requires n <= |t| && AllDropped(t[n..], drop) && Tight(t[..n], drop)
    ensures TrimBy(t, drop) == t[..n]
  {
    if n == 0 {
      TrimStartSkips(t, drop, |t|);
      assert t[..|t|] == t[0..] && t[|t|..] == "";
      assert TrimStart("", drop) == "" && TrimEnd("", drop) == "";
    } else {
      assert t[..n][0] == t[0];
      TrimEndSkips(t, drop, n);
    }
  }

  lemma TrimSkips(s: string, drop: char -> bool, i: nat)
    requires i <= |s| && AllDropped(s[..i], drop)
    ensures TrimBy(s, drop) == TrimBy(s[i..], drop)
  {
    TrimStartSkips(s, drop, i);
  }

  /** A tight middle between dropped ends is what trimming leaves. */
  lemma TrimLeavesTheMiddle(s: string, drop: char -> bool, i: nat, j: nat)
    requires i <= j <= |s| && AllDropped(s[..i], drop) && AllDropped(s[j..], drop) && Tight(s[i..j], drop)
    ensures TrimBy(s, drop) == s[i..j]
  {
    assert AllDropped(s[i..][j - i..], drop) by { assert s[i..][j - i..] == s[j..]; }
    assert Tight(s[i..][..j - i], drop) && s[i..][..j - i] == s[i..j] by { assert s[i..][..j - i] == s[i..j]; }
    TightEndStays(s[i..], drop, j - i);
    TrimSkips(s, drop, i);
  }

  /** When what SQL leaves has no white space at its ends, both trims agree. */
  lemma SqlTrimIsTrim(s: string)
    requires Tight(SqlTrim(s), IsSpace)
    ensures Trim(s) == SqlTrim(s)
  {
    var i, j := TrimDrops(s, c => c == ' ');
    TrimLeavesTheMiddle(s, IsSpace, i, j);
  }

  // ---------------------------------------------------------------- text without letters of the Latin alphabet

  predicate NoLetters(s: string) { forall i :: 0 <= i < |s| ==> !('A' <= s[i] <= 'Z') && !('a' <= s[i] <= 'z') }

  lemma LowerWithoutLetters(t: string, s: string)
    requires NoLetters(s)
    ensures Lower(t) == s <==> t == s
  {
    if Lower(t) == s {
      forall i | 0 <= i < |t| ensures t[i] == s[i] { assert Lower(t)[i] == s[i]; }
      assert t == s;
    }
    if t == s { assert Lower(t) == s; }
  }

  lemma LowerKeepsPrefix(t: string, s: string)
    requires NoLetters(s)
    ensures s <= Lower(t) <==> s <= t
  {
    if |s| <= |t| {
      LowerWithoutLetters(t[..|s|], s);
      assert Lower(t)[..|s|] == Lower(t[..|s|]);
    }
  }

  lemma {:induction false} LowerContains(t: string, s: string)
    requires NoLetters(s)
    ensures Contains(Lower(t), s) <==> Contains(t, s)
    decreases |t|
  {
    LowerKeepsPrefix(t, s);
    if t != "" {
      assert Lower(t)[1..] == Lower(t[1..]);
      LowerContains(t[1..], s);
    }
  }

  // ---------------------------------------------------------------- numbers as text

  function Decimal(n: nat): string {
    if n < 10 then [('0' as int + n) as char] else Decimal(n / 10) + [('0' as int + n % 10) as char]
  }

  lemma {:induction false} DecimalInjective(m: nat, n: nat)
    requires Decimal(m) == Decimal(n)
    ensures m == n
  {
    var a, b := Decimal(m), Decimal(n);
    assert a[|a| - 1] == ('0' as int + m % 10) as char;
    assert b[|b| - 1] == ('0' as int + n % 10) as char;
    DecimalNonEmpty(m / 10);
    DecimalNonEmpty(n / 10);
    if m >= 10 {
      assert |a| >= 2;
      assert n >= 10;
      assert a[..|a| - 1] == Decimal(m / 10) && b[..|b| - 1] == Decimal(n / 10);
      DecimalInjective(m / 10, n / 10);
    } else {
      assert |b| == 1;
      assert n < 10;
    }
  }

  lemma DecimalNonEmpty(n: nat)
    ensures |Decimal(n)| >= 1
  {
  }
}
