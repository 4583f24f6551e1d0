/**
 * The JavaScript string operations the dashboard relies on: `trim`, the
 * regular-expression class `\s`, `toLowerCase`, `startsWith` and `includes`.
 */
module Text {

  /** The characters ECMAScript counts as WhiteSpace or LineTerminator: the set both
      `String.prototype.trim` and the regular-expression class `\s` remove or match. */
  predicate IsSpace(c: char)
  {
    || c == ' ' || c == '\t' || c == '\n' || c == '\r'
    || c == '\U{000B}' || c == '\U{000C}' || c == '\U{00A0}' || c == '\U{1680}'
    || ('\U{2000}' <= c <= '\U{200A}')
    || c == '\U{2028}' || c == '\U{2029}' || c == '\U{202F}' || c == '\U{205F}'
    || c == '\U{3000}' || c == '\U{FEFF}'
  }

  predicate AllSpace(s: string)
  {
    forall i :: 0 <= i < |s| ==> IsSpace(s[i])
  }

  /** Neither the first nor the last character is white space. */
  predicate Trimmed(s: string)
  {
    s == [] || (!IsSpace(s[0]) && !IsSpace(s[|s| - 1]))
  }

  /** Drops the leading white space: what is left is a suffix of `s`. */
  function TrimStart(s: string): (r: string)
    ensures |r| <= |s| && r == s[|s| - |r|..]
    ensures r == [] || !IsSpace(r[0])
  {
    if |s| > 0 && IsSpace(s[0]) then TrimStart(s[1..]) else s
  }

  /** Drops the trailing white space: what is left is a prefix of `s`. */
  function TrimEnd(s: string): (r: string)
    ensures |r| <= |s| && r == s[..|r|]
    ensures r == [] || !IsSpace(r[|r| - 1])
  {
    if |s| > 0 && IsSpace(s[|s| - 1]) then TrimEnd(s[..|s| - 1]) else s
  }

  /** What `TrimStart` drops is white space. */
  lemma {:induction false} TrimStartDropsSpace(s: string)
    ensures AllSpace(s[..|s| - |TrimStart(s)|])
  {
    if |s| > 0 && IsSpace(s[0]) {
      TrimStartDropsSpace(s[1..]);
      var k := |s| - |TrimStart(s)|;
      forall i | 0 <= i < k ensures IsSpace(s[..k][i]) {
        if i > 0 {
          assert s[..k][i] == s[1..][..k - 1][i - 1];
        }
      }
    }
  }

  /** What `TrimEnd` drops is white space. */
  lemma {:induction false} TrimEndDropsSpace(s: string)
    ensures AllSpace(s[|TrimEnd(s)|..])
  {
    if |s| > 0 && IsSpace(s[|s| - 1]) {
      var t := s[..|s| - 1];
      TrimEndDropsSpace(t);
      var k := |TrimEnd(s)|;
      forall i | k <= i < |s| ensures IsSpace(s[i]) {
        if i < |s| - 1 {
          assert s[i] == t[k..][i - k];
        }
      }
    }
  }

  /** `s.trim()`: the slice of `s` between its leading and its trailing white space. */
  function Trim(s: string): (r: string)
    ensures Trimmed(r)
  {
    var a := TrimStart(s);
    var r := TrimEnd(a);
    assert r != [] ==> r[0] == a[0];
    r
  }

  /** `trim` keeps a contiguous slice of `s`: with `k` the length of the leading
      white space, the result is `s[k..k + |Trim(s)|]`. */
  lemma TrimIsSlice(s: string)
    ensures var k := |s| - |TrimStart(s)|;
      k + |Trim(s)| <= |s| && Trim(s) == s[k..k + |Trim(s)|]
  {
    var a := TrimStart(s);
    PrefixOfSuffix(s, |s| - |a|, a, TrimEnd(a));
  }

  /** What `trim` cut away on both sides is white space. */
  lemma TrimCutsSpace(s: string)
    ensures var k := |s| - |TrimStart(s)|;
      k + |Trim(s)| <= |s| && AllSpace(s[..k]) && AllSpace(s[k + |Trim(s)|..])
  {
    TrimStartDropsSpace(s);
    TrimDropsTrailingSpace(s);
  }

  lemma TrimDropsTrailingSpace(s: string)
    ensures var k := |s| - |TrimStart(s)|;
      k + |TrimEnd(TrimStart(s))| <= |s| && AllSpace(s[k + |TrimEnd(TrimStart(s))|..])
  {
    var a := TrimStart(s);
    TrimEndOfSuffix(s, |s| - |a|, a);
  }

  lemma TrimEndOfSuffix(s: string, k: nat, a: string)
    requires k <= |s| && a == s[k..]
    ensures k + |TrimEnd(a)| <= |s| && AllSpace(s[k + |TrimEnd(a)|..])
  {
    TrimEndDropsSpace(a);
    SpaceAfterSuffix(s, k, a, |TrimEnd(a)|);
  }

  lemma PrefixOfSuffix(s: string, k: nat, a: string, r: string)
    requires k <= |s| && a == s[k..] && |r| <= |a| && r == a[..|r|]
    ensures r == s[k..k + |r|]
  {
  }

  lemma SpaceAfterSuffix(s: string, k: nat, a: string, j: nat)
    requires k <= |s| && a == s[k..] && j <= |a| && AllSpace(a[j..])
    ensures AllSpace(s[k + j..])
  {
    assert a[j..] == s[k + j..];
  }

  lemma {:induction false} TrimStartOfTrimmed(s: string)
    requires Trimmed(s)
    ensures TrimStart(s) == s
  {
  }

  lemma {:induction false} TrimStartOfTrimmed2(s: string)
    requires s == [] || !IsSpace(s[0])
    ensures TrimStart(s) == s
  {
  }

  lemma {:induction false} TrimEndOfTrimmed(s: string)
    requires Trimmed(s)
    ensures TrimEnd(s) == s
  {
  }

  /** A trimmed string is its own trim. */
  lemma TrimOfTrimmed(s: string)
    requires Trimmed(s)
    ensures Trim(s) == s
  {
    TrimStartOfTrimmed(s);
    TrimEndOfTrimmed(s);
  }

  /** `trim` is idempotent. */
  lemma {:induction false} TrimIdempotent(s: string)
    ensures Trim(Trim(s)) == Trim(s)
  {
    var t := Trim(s);
    TrimStartOfTrimmed(t);
    TrimEndOfTrimmed(t);
  }

  /** `Trim(s)` is empty exactly when `s` is blank (all white space). */
  lemma {:induction false} TrimEmptyIffBlank(s: string)
    ensures Trim(s) == [] <==> AllSpace(s)
  {
    var k := |s| - |TrimStart(s)|;
    var r := Trim(s);
    TrimIsSlice(s);
    TrimCutsSpace(s);
    if r == [] {
      assert k == |s| && s[..k] == s;
    } else {
      assert r[0] == s[k];
    }
  }

  /** `toLowerCase` on one character: ASCII and Latin-1 capitals. */
  function LowerChar(c: char): (r: char)
    ensures IsSpace(c) ==> r == c
  {
    if 'A' <= c <= 'Z' || ('\U{00C0}' <= c <= '\U{00DE}' && c != '\U{00D7}') then
      (c as int + 32) as char
    else
      c
  }

  /** `s.toLowerCase()`, character by character. */
  function Lower(s: string): (r: string)
    ensures |r| == |s|
    ensures forall i :: 0 <= i < |s| ==> r[i] == LowerChar(s[i])
  {
    seq(|s|, i requires 0 <= i < |s| => LowerChar(s[i]))
  }

  /** Lower-casing an already lower-cased string changes nothing. */
  lemma LowerIdempotent(s: string)
    ensures Lower(Lower(s)) == Lower(s)
  {
  }

  /** Lower-casing works character by character, so it distributes over concatenation. */
  lemma LowerConcat(a: string, b: string)
    ensures Lower(a + b) == Lower(a) + Lower(b)
  {
  }

  /** No ASCII or Latin-1 capital survives lower-casing. */
  lemma LowerNoCapitals(s: string)
    ensures forall i :: 0 <= i < |Lower(s)| ==> !('A' <= Lower(s)[i] <= 'Z')
    ensures forall i :: 0 <= i < |Lower(s)| ==> !('\U{00C0}' <= Lower(s)[i] <= '\U{00DE}' && Lower(s)[i] != '\U{00D7}')
  {
  }

  /** `s.replace(/\s+/g, " ")`: every maximal run of white space becomes one space. */
  function CollapseSpace(s: string): string
  {
    CollapseRun(s, false)
  }

  /** Collapsing, when `inRun` says whether the character before `s` was white space
      (and has already been replaced by its run's single space). */
  function CollapseRun(s: string, inRun: bool): (r: string)
    ensures |r| <= |s|
  {
    if s == [] then []
    else if !IsSpace(s[0]) then [s[0]] + CollapseRun(s[1..], false)
    else if inRun then CollapseRun(s[1..], true)
    else " " + CollapseRun(s[1..], true)
  }

  /** Already collapsed: every white-space character is a plain space and none is
      followed by another white-space character. */
  predicate Collapsed(s: string)
  {
    forall i :: 0 <= i < |s| && IsSpace(s[i]) ==> s[i] == ' ' && (i + 1 == |s| || !IsSpace(s[i + 1]))
  }

  lemma {:induction false} CollapseRunFixed(s: string, inRun: bool)
    requires Collapsed(s)
    requires inRun ==> s == [] || !IsSpace(s[0])
    ensures CollapseRun(s, inRun) == s
  {
    if s != [] {
      var t := s[1..];
      assert Collapsed(t) by {
        forall i | 0 <= i < |t| && IsSpace(t[i])
          ensures t[i] == ' ' && (i + 1 == |t| || !IsSpace(t[i + 1]))
        {
          assert t[i] == s[i + 1];
        }
      }
      CollapseRunFixed(t, IsSpace(s[0]));
      assert s == [s[0]] + t;
    }
  }

  /** Collapsing leaves an already collapsed string alone. */
  lemma CollapseFixed(s: string)
    requires Collapsed(s)
    ensures CollapseSpace(s) == s
  {
    CollapseRunFixed(s, false);
  }

  /** No character of `s` is white space (checked character by character). */
  predicate NoSpace(s: string)
  {
    s == [] || (!IsSpace(s[0]) && NoSpace(s[1..]))
  }

  /** Collapsing leaves a string without white space alone. */
  lemma {:induction false} CollapseRunNoSpace(s: string, inRun: bool)
    requires NoSpace(s)
    ensures CollapseRun(s, inRun) == s
  {
    if s != [] {
      CollapseRunNoSpace(s[1..], false);
      assert s == [s[0]] + s[1..];
    }
  }

  /** Collapsing works piecewise: the second piece continues the run state the first ends in. */
  lemma {:induction false} CollapseRunConcat(a: string, b: string, inRun: bool)
    ensures CollapseRun(a + b, inRun)
         == CollapseRun(a, inRun) + CollapseRun(b, if a == [] then inRun else IsSpace(a[|a| - 1]))
  {
    if a == [] {
      assert a + b == b;
    } else {
      assert (a + b)[0] == a[0] && (a + b)[1..] == a[1..] + b;
      CollapseRunConcat(a[1..], b, IsSpace(a[0]));
      if a[1..] != [] {
        assert a[1..][|a[1..]| - 1] == a[|a| - 1];
      }
    }
  }

  /** `s.startsWith(prefix)`. */
  predicate StartsWith(s: string, prefix: string)
  {
    prefix <= s
  }

  /** `s.includes(q)`: `q` occurs in `s` as a contiguous block. */
  predicate Contains(s: string, q: string)
    decreases |s|
  {
    q <= s || (|s| > 0 && Contains(s[1..], q))
  }

  predicate OccursAt(s: string, q: string, i: int)
  {
    0 <= i <= |s| - |q| && s[i..i + |q|] == q
  }

  /** `Contains` means what it says: `q` is some slice of `s`. */
  lemma ContainsIffOccurs(s: string, q: string)
    ensures Contains(s, q) <==> exists i :: OccursAt(s, q, i)
  {
    if Contains(s, q) {
      ContainsHasOccurrence(s, q);
    }
    if exists i :: OccursAt(s, q, i) {
      var i :| OccursAt(s, q, i);
      OccurrenceIsContained(s, q, i);
    }
  }

  lemma {:induction false} ContainsHasOccurrence(s: string, q: string)
    requires Contains(s, q)
    ensures exists i :: OccursAt(s, q, i)
    decreases |s|
  {
    if q <= s {
      assert OccursAt(s, q, 0);
    } else {
      ContainsHasOccurrence(s[1..], q);
      var j :| OccursAt(s[1..], q, j);
      assert s[1..][j..j + |q|] == s[j + 1..j + 1 + |q|];
      assert OccursAt(s, q, j + 1);
    }
  }

  lemma {:induction false} OccurrenceIsContained(s: string, q: string, i: int)
    requires OccursAt(s, q, i)
    ensures Contains(s, q)
    decreases i
  {
    if i == 0 {
      assert q <= s;
    } else {
      assert s[1..][i - 1..i - 1 + |q|] == s[i..i + |q|];
      OccurrenceIsContained(s[1..], q, i - 1);
    }
  }

  predicate IsDigit(c: char)
  {
    '0' <= c <= '9'
  }

  predicate AllDigits(s: string)
  {
    forall i :: 0 <= i < |s| ==> IsDigit(s[i])
  }

  /** The value of a string of decimal digits, as `Number` reads it. */
  function DigitsValue(s: string): (n: nat)
    requires AllDigits(s)
  {
    if s == [] then 0 else DigitsValue(s[..|s| - 1]) * 10 + (s[|s| - 1] as int - '0' as int)
  }

  /** The decimal digits of `n`, without leading zeros ("0" for zero). */
  function NatToDigits(n: nat): (s: string)
    ensures AllDigits(s) && |s| > 0
  {
    if n < 10 then [('0' as int + n) as char] else NatToDigits(n / 10) + [('0' as int + n % 10) as char]
  }

  /** Reading back the decimal digits of `n` gives `n`. */
  lemma {:induction false} DigitsValueOfNatToDigits(n: nat)
    ensures DigitsValue(NatToDigits(n)) == n
  {
    var s := NatToDigits(n);
    if n >= 10 {
      DigitsValueOfNatToDigits(n / 10);
      assert s[..|s| - 1] == NatToDigits(n / 10);
    }
  }
}
