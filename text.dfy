/**
 * The two text cleaners of the parser module: `_cleanProductName` and the string
 * stage of `_cleanPrice` (everything before the float conversion).
 * Strings are sequences of characters; `str.replace` and `str.strip` are written out.
 */
module Text {

  /** The characters Python's `str.strip()` removes (those for which `str.isspace()` holds). */
  const PyWhitespace: set<char> := {
    '\t', '\n', '\U{B}', '\U{C}', '\r', '\U{1C}', '\U{1D}', '\U{1E}', '\U{1F}', ' ',
    '\U{85}', '\U{A0}', '\U{1680}', '\U{2000}', '\U{2001}', '\U{2002}', '\U{2003}',
    '\U{2004}', '\U{2005}', '\U{2006}', '\U{2007}', '\U{2008}', '\U{2009}', '\U{200A}',
    '\U{2028}', '\U{2029}', '\U{202F}', '\U{205F}', '\U{3000}'
  }

  /** The bytes `bytes.strip()` removes, read as characters. */
  const AsciiWhitespace: set<char> := {' ', '\t', '\n', '\r', '\U{B}', '\U{C}'}

  const DescriptionPrefix: string := "Beskrivelse: "
  const VatPrefix: string := "Pris inkl. moms: "
  const CurrencySuffix: string := " kr."

  // ---------------------------------------------------------------- strip

  function TrimLeft(s: string, ws: set<char>): string {
    if |s| > 0 && s[0] in ws then TrimLeft(s[1..], ws) else s
  }

  function TrimRight(s: string, ws: set<char>): string {
    if |s| > 0 && s[|s| - 1] in ws then TrimRight(s[..|s| - 1], ws) else s
  }

  /** `s.strip()` with the whitespace set `ws`. */
  function Trim(s: string, ws: set<char>): string {
    TrimRight(TrimLeft(s, ws), ws)
  }

  /** TrimLeft removes exactly the longest prefix made of `ws` characters. */
  lemma {:induction false} TrimLeftSpec(s: string, ws: set<char>)
    ensures var r := TrimLeft(s, ws);
      |r| <= |s| && r == s[|s| - |r|..]
      && (forall k :: 0 <= k < |s| - |r| ==> s[k] in ws)
      && (r == [] || r[0] !in ws)
  {
    if |s| > 0 && s[0] in ws {
      TrimLeftSpec(s[1..], ws);
    }
  }

  /** TrimRight removes exactly the longest suffix made of `ws` characters. */
  lemma {:induction false} TrimRightSpec(s: string, ws: set<char>)
    ensures var r := TrimRight(s, ws);
      |r| <= |s| && r == s[..|r|]
      && (forall k :: |r| <= k < |s| ==> s[k] in ws)
      && (r == [] || r[|r| - 1] !in ws)
  {
    if |s| > 0 && s[|s| - 1] in ws {
      TrimRightSpec(s[..|s| - 1], ws);
    }
  }

  /**
   * Trim returns the slice s[i..j] between a prefix and a suffix made only of `ws`
   * characters, and neither end of the result is a `ws` character: nothing more and
   * nothing less than the surrounding whitespace is removed.
   */
  lemma TrimSpec(s: string, ws: set<char>)
    ensures var r := Trim(s, ws);
      var i := |s| - |TrimLeft(s, ws)|;
      0 <= i && i + |r| <= |s| && r == s[i..i + |r|]
      && (forall k :: 0 <= k < i ==> s[k] in ws)
      && (forall k :: i + |r| <= k < |s| ==> s[k] in ws)
      && (r == [] || (r[0] !in ws && r[|r| - 1] !in ws))
  {
    var l := TrimLeft(s, ws);
    TrimLeftSpec(s, ws);
    TrimRightSpec(l, ws);
    var r := Trim(s, ws);
    var i := |s| - |l|;
    assert l == s[i..];
    assert r == l[..|r|];
    forall k | i + |r| <= k < |s| ensures s[k] in ws {
      assert s[k] == l[k - i];
    }
  }

  /** A string with no `ws` character at all is left as it is. */
  lemma {:induction false} TrimNothing(s: string, ws: set<char>)
    requires forall k :: 0 <= k < |s| ==> s[k] !in ws
    ensures Trim(s, ws) == s
  {
    assert TrimLeft(s, ws) == s;
    assert TrimRight(s, ws) == s;
  }

  // ---------------------------------------------------------------- replace

  /**
   * `s.replace(pat, rep)`: scanning left to right, every occurrence of `pat` that does
   * not overlap an earlier replaced one is replaced by `rep`.
   */
  function ReplaceAll(s: string, pat: string, rep: string): string
    requires |pat| > 0
    decreases |s|
  {
    if |s| < |pat| then s
    else if s[..|pat|] == pat then rep + ReplaceAll(s[|pat|..], pat, rep)
    else [s[0]] + ReplaceAll(s[1..], pat, rep)
  }

  /** Every character of a replacement's result comes from the input or from `rep`. */
  lemma {:induction false} ReplaceAllChars(s: string, pat: string, rep: string)
    requires |pat| > 0
    ensures forall c :: c in ReplaceAll(s, pat, rep) ==> c in s || c in rep
    decreases |s|
  {
    if |s| >= |pat| {
      if s[..|pat|] == pat {
        ReplaceAllChars(s[|pat|..], pat, rep);
      } else {
        ReplaceAllChars(s[1..], pat, rep);
      }
    }
  }

  /** Replacing a one-character pattern by text that does not contain it leaves no copy of it. */
  lemma {:induction false} ReplaceCharRemovesIt(s: string, c: char, rep: string)
    requires c !in rep
    ensures c !in ReplaceAll(s, [c], rep)
    decreases |s|
  {
    if |s| >= 1 {
      if s[..1] == [c] {
        ReplaceCharRemovesIt(s[1..], c, rep);
      } else {
        assert s[0] != c by { assert s[..1] == [s[0]]; }
        ReplaceCharRemovesIt(s[1..], c, rep);
      }
    }
  }

  /** A leading piece with no character equal to the pattern's first one is copied unchanged. */
  lemma {:induction false} ReplaceAllSkips(a: string, b: string, pat: string, rep: string)
    requires |pat| > 0 && pat[0] !in a
    ensures ReplaceAll(a + b, pat, rep) == a + ReplaceAll(b, pat, rep)
    decreases |a|
  {
    if a != [] {
      var s := a + b;
      assert s[1..] == a[1..] + b;
      ReplaceAllSkips(a[1..], b, pat, rep);
      if |s| >= |pat| {
        assert s[..|pat|][0] == a[0];
        assert s[..|pat|] != pat;
      } else {
        // the whole string is shorter than the pattern: both sides are the string itself
        ReplaceAllShort(b, pat, rep);
        ReplaceAllShort(a[1..] + b, pat, rep);
      }
    } else {
      assert a + b == b;
    }
  }

  lemma ReplaceAllShort(s: string, pat: string, rep: string)
    requires 0 < |pat| && |s| < |pat|
    ensures ReplaceAll(s, pat, rep) == s
  {
  }

  /** A string that starts with the pattern loses that occurrence to `rep`. */
  lemma ReplaceAllLeading(b: string, pat: string, rep: string)
    requires |pat| > 0
    ensures ReplaceAll(pat + b, pat, rep) == rep + ReplaceAll(b, pat, rep)
  {
    var s := pat + b;
    assert s[..|pat|] == pat;
    assert s[|pat|..] == b;
  }

  /** Python's `s.replace(",", ".")` is the character-wise map of ',' to '.'. */
  function CommaToPoint(s: string): string {
    seq(|s|, k requires 0 <= k < |s| => if s[k] == ',' then '.' else s[k])
  }

  lemma {:induction false} ReplaceCommaIsMap(s: string)
    ensures ReplaceAll(s, ",", ".") == CommaToPoint(s)
    decreases |s|
  {
    if |s| >= 1 {
      ReplaceCommaIsMap(s[1..]);
      assert s[..1] == [s[0]];
      var r := ReplaceAll(s, ",", ".");
      assert r == [CommaToPoint(s)[0]] + CommaToPoint(s[1..]);
    }
  }

  // ---------------------------------------------------------------- cleaners

  /** `_cleanProductName`: drop every "Beskrivelse: ", then strip. */
  function CleanProductName(raw: string): (r: string)
    ensures r == [] || (r[0] !in PyWhitespace && r[|r| - 1] !in PyWhitespace)
  {
    var removed := ReplaceAll(raw, DescriptionPrefix, "");
    TrimSpec(removed, PyWhitespace);
    Trim(removed, PyWhitespace)
  }

  /** A leading "Beskrivelse: " label does not change the cleaned name. */
  lemma CleanProductNameDropsLabel(name: string)
    ensures CleanProductName(DescriptionPrefix + name) == CleanProductName(name)
  {
    ReplaceAllLeading(name, DescriptionPrefix, "");
    assert "" + ReplaceAll(name, DescriptionPrefix, "") == ReplaceAll(name, DescriptionPrefix, "");
  }

  /** `pat in s`: the pattern occurs somewhere in the string. */
  predicate Contains(s: string, pat: string)
    decreases |s|
  {
    |s| >= |pat| && (s[..|pat|] == pat || (|s| > 0 && Contains(s[1..], pat)))
  }

  /** Replacing a pattern that does not occur leaves the string as it is. */
  lemma {:induction false} ReplaceAllAbsent(s: string, pat: string, rep: string)
    requires |pat| > 0 && !Contains(s, pat)
    ensures ReplaceAll(s, pat, rep) == s
    decreases |s|
  {
    if |s| >= |pat| {
      ReplaceAllAbsent(s[1..], pat, rep);
      assert [s[0]] + s[1..] == s;
    }
  }

  /** A string that neither starts nor ends with a `ws` character is left as it is. */
  lemma TrimUntrimmed(s: string, ws: set<char>)
    requires s == [] || (s[0] !in ws && s[|s| - 1] !in ws)
    ensures Trim(s, ws) == s
  {
  }

  /** A name without the "Beskrivelse: " label and without whitespace at either end is its own cleaned form. */
  lemma CleanProductNamePlain(name: string)
    requires !Contains(name, DescriptionPrefix)
    requires name == [] || (name[0] !in PyWhitespace && name[|name| - 1] !in PyWhitespace)
    ensures CleanProductName(name) == name
  {
    ReplaceAllAbsent(name, DescriptionPrefix, "");
    TrimUntrimmed(name, PyWhitespace);
  }

  /** The string stage of `_cleanPrice`: drop the VAT label and the currency unit, decimal comma to point, strip. */
  function CleanPriceText(raw: string): (r: string)
    ensures ',' !in r
    ensures r == [] || (r[0] !in PyWhitespace && r[|r| - 1] !in PyWhitespace)
  {
    var noVat := ReplaceAll(raw, VatPrefix, "");
    var noUnit := ReplaceAll(noVat, CurrencySuffix, "");
    var pointed := ReplaceAll(noUnit, ",", ".");
    ReplaceCharRemovesIt(noUnit, ',', ".");
    var r := Trim(pointed, PyWhitespace);
    TrimSpec(pointed, PyWhitespace);
    assert forall c :: c in r ==> c in pointed;
    r
  }

  predicate DecimalCommaText(x: string) {
    forall k :: 0 <= k < |x| ==> x[k] in "0123456789,"
  }

  lemma VatPrefixRemoved(x: string)
    requires DecimalCommaText(x)
    ensures ReplaceAll(VatPrefix + x + CurrencySuffix, VatPrefix, "") == x + CurrencySuffix
  {
    assert VatPrefix + x + CurrencySuffix == VatPrefix + (x + CurrencySuffix);
    ReplaceAllLeading(x + CurrencySuffix, VatPrefix, "");
    assert 'P' !in x;
    ReplaceAllSkips(x, CurrencySuffix, VatPrefix, "");
    ReplaceAllShort(CurrencySuffix, VatPrefix, "");
  }

  lemma CurrencySuffixRemoved(x: string)
    requires DecimalCommaText(x)
    ensures ReplaceAll(x + CurrencySuffix, CurrencySuffix, "") == x
  {
    assert ' ' !in x;
    ReplaceAllSkips(x, CurrencySuffix, CurrencySuffix, "");
    assert CurrencySuffix == CurrencySuffix + "";
    ReplaceAllLeading("", CurrencySuffix, "");
    assert x + "" == x;
  }

  /**
   * A price as the operators print it, "Pris inkl. moms: X kr." with X made of digits
   * and a decimal comma, cleans to X with the comma turned into a point.
   */
  lemma CleanPriceTextDecorated(x: string)
    requires DecimalCommaText(x)
    ensures CleanPriceText(VatPrefix + x + CurrencySuffix) == CommaToPoint(x)
  {
    var raw := VatPrefix + x + CurrencySuffix;
    VatPrefixRemoved(x);
    CurrencySuffixRemoved(x);
    var noUnit := ReplaceAll(ReplaceAll(raw, VatPrefix, ""), CurrencySuffix, "");
    assert noUnit == x;
    ReplaceCommaIsMap(x);
    CommaToPointNoSpace(x);
    TrimNothing(CommaToPoint(x), PyWhitespace);
  }

  lemma CommaToPointNoSpace(x: string)
    requires DecimalCommaText(x)
    ensures forall k :: 0 <= k < |CommaToPoint(x)| ==> CommaToPoint(x)[k] !in PyWhitespace
  {
    var p := CommaToPoint(x);
    forall k | 0 <= k < |p| ensures p[k] !in PyWhitespace {
      assert x[k] in "0123456789,";
      assert p[k] == if x[k] == ',' then '.' else x[k];
    }
  }
}
