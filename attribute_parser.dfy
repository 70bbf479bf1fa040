/**
 * Attribute parsing for the web components (src/widgets/shared/attribute-parser.ts).
 *
 * An attribute read with getAttribute is an `Option<string>` (None for null); JavaScript
 * treats both null and "" as absent. The foreign parsers are parameters: `parseFloat` as
 * `number` (None for NaN), `Number.prototype.toString` as `show`, `JSON.parse` as `json`
 * (None when it throws). The console warnings are left out.
 */
module AttributeParser {
  import opened Util

  /** `!value` is false: the attribute is present and not empty. */
  predicate Given(value: Option<string>) {
    value.Some? && value.value != ""
  }

  /**
   * parseBoolean: presence decides, whatever the attribute's text (even "false"); an absent
   * attribute gives the default, false unless told otherwise.
   */
  function ParseBoolean(attributes: map<string, string>, name: string, default: bool := false): (r: bool)
    ensures name in attributes ==> r
    ensures name !in attributes ==> r == default
  {
    if name in attributes then true else default
  }

  /**
   * parseNumber: the default for an absent or unparsable value; otherwise the parsed number
   * clamped, the minimum checked first.
   */
  function ParseNumber(value: Option<string>, default: real, min: Option<real>, max: Option<real>,
                       number: string -> Option<real>): (r: real)
    ensures !Given(value) || number(value.value).None? ==> r == default
    ensures Given(value) && number(value.value).Some? ==>
      var p := number(value.value).value;
      && (min.Some? && p < min.value ==> r == min.value)
      && (!(min.Some? && p < min.value) && max.Some? && p > max.value ==> r == max.value)
      && (!(min.Some? && p < min.value) && !(max.Some? && p > max.value) ==> r == p)
  {
    if !Given(value) then default
    else
      var parsed := number(value.value);
      if parsed.None? then default
      else if min.Some? && parsed.value < min.value then min.value
      else if max.Some? && parsed.value > max.value then max.value
      else parsed.value
  }

  /** A parsed number always lands in [min, max] when min <= max; so does every result when the default does. */
  lemma ParseNumberInRange(value: Option<string>, default: real, min: real, max: real,
                           number: string -> Option<real>)
    requires min <= max
    ensures Given(value) && number(value.value).Some? ==>
      min <= ParseNumber(value, default, Some(min), Some(max), number) <= max
    ensures min <= default <= max ==> min <= ParseNumber(value, default, Some(min), Some(max), number) <= max
  {
  }

  /** parseJSON: the default when the value is absent or JSON.parse throws, otherwise what it parsed. */
  function ParseJson<T>(value: Option<string>, default: T, json: string -> Option<T>): (r: T)
    ensures !Given(value) ==> r == default
    ensures Given(value) ==> r == json(value.value).GetOr(default)
  {
    if !Given(value) then default
    else
      match json(value.value)
      case Some(parsed) => parsed
      case None => default
  }

  /**
   * parseEnum: the value when it is one of the allowed values, the default otherwise; so
   * the result is always allowed or the default.
   */
  function ParseEnum(value: Option<string>, allowed: seq<string>, default: string): (r: string)
    ensures r == default || r in allowed
    ensures r in allowed && r != default ==> value == Some(r)
    ensures Given(value) && value.value in allowed ==> r == value.value
  {
    if !Given(value) then default
    else if value.value in allowed then value.value
    else default
  }

  // ---------------------------------------------------------------------------------
  // The CSS length pattern /^-?\d*\.?\d+(px|%|em|rem|vh|vw|vmin|vmax|ch|ex|cm|mm|in|pt|pc)$/i

  const Units: seq<string> := ["px", "%", "em", "rem", "vh", "vw", "vmin", "vmax", "ch", "ex", "cm", "mm", "in", "pt", "pc"]

  /** The case folding of the `i` flag, on ASCII letters. */
  function LowerChar(c: char): char {
    if 'A' <= c <= 'Z' then (c as int + 32) as char else c
  }

  function Lower(s: string): (r: string)
    ensures |r| == |s| && forall k :: 0 <= k < |s| ==> r[k] == LowerChar(s[k])
  {
    seq(|s|, k requires 0 <= k < |s| => LowerChar(s[k]))
  }

  /** `\d*\.?\d+` as a language: digits, or digits, a dot and at least one digit. */
  ghost predicate NumeralMatch(t: string) {
    || (t != [] && AllDigits(t))
    || (exists k :: 0 <= k < |t| - 1 && t[k] == '.' && AllDigits(t[..k]) && AllDigits(t[k + 1..]))
  }

  /** The whole pattern: an optional minus, a numeral and a unit, in any letter case. */
  ghost predicate CssLengthMatch(s: string) {
    exists p :: 0 <= p <= |s| && Lower(s[p..]) in Units &&
      (NumeralMatch(s[..p]) || (0 < p && s[0] == '-' && NumeralMatch(s[1..p])))
  }

  predicate NumeralChar(c: char) {
    IsDigit(c) || c == '.'
  }

  /** The length of the longest prefix of digits and dots. */
  function NumeralPrefix(s: string): (n: nat)
    ensures n <= |s|
    ensures forall k :: 0 <= k < n ==> NumeralChar(s[k])
    ensures n == |s| || !NumeralChar(s[n])
  {
    if s != [] && NumeralChar(s[0]) then 1 + NumeralPrefix(s[1..]) else 0
  }

  /** The index of the first dot, or the length when there is none. */
  function FirstDot(s: string): (n: nat)
    ensures n <= |s| && (forall k :: 0 <= k < n ==> s[k] != '.') && (n == |s| || s[n] == '.')
  {
    if s == [] || s[0] == '.' then 0 else 1 + FirstDot(s[1..])
  }

  /** A numeral, checked by splitting at the first dot. */
  predicate IsNumeral(t: string) {
    var k := FirstDot(t);
    if k == |t| then t != [] && AllDigits(t)
    else k < |t| - 1 && AllDigits(t[..k]) && AllDigits(t[k + 1..])
  }

  /** The recogniser: skip a minus, take the digits and dots, and check the rest is a unit. */
  predicate IsCssLength(s: string) {
    var start := if s != [] && s[0] == '-' then 1 else 0;
    var p := start + NumeralPrefix(s[start..]);
    IsNumeral(s[start..p]) && Lower(s[p..]) in Units
  }

  lemma NumeralCorrect(t: string)
    ensures IsNumeral(t) <==> NumeralMatch(t)
  {
    var k := FirstDot(t);
    if NumeralMatch(t) && !(t != [] && AllDigits(t)) {
      var j :| 0 <= j < |t| - 1 && t[j] == '.' && AllDigits(t[..j]) && AllDigits(t[j + 1..]);
      assert forall i :: 0 <= i < j ==> t[i] == t[..j][i];
      assert j == k;
    }
    if k < |t| - 1 && AllDigits(t[..k]) && AllDigits(t[k + 1..]) {
      assert t[k] == '.';
    }
  }

  /** Every numeral character of a numeral: digits and dots only. */
  lemma NumeralChars(t: string)
    requires NumeralMatch(t)
    ensures forall k :: 0 <= k < |t| ==> NumeralChar(t[k])
  {
    if !(t != [] && AllDigits(t)) {
      var j :| 0 <= j < |t| - 1 && t[j] == '.' && AllDigits(t[..j]) && AllDigits(t[j + 1..]);
      forall k | 0 <= k < |t| ensures NumeralChar(t[k]) {
        if k < j {
          assert t[k] == t[..j][k];
        } else if k > j {
          assert t[k] == t[j + 1..][k - j - 1];
        }
      }
    }
  }

  /** No unit starts with a digit or a dot, in any case. */
  lemma UnitStart(u: string)
    requires Lower(u) in Units
    ensures u != [] && !NumeralChar(u[0])
  {
    var l := Lower(u);
    assert l != [];
    assert l[0] == LowerChar(u[0]);
    assert l[0] in {'p', '%', 'e', 'r', 'v', 'c', 'm', 'i'};
  }

  /** The longest digit-and-dot prefix ends where such a prefix is followed by something else. */
  lemma {:induction false} NumeralPrefixAt(s: string, p: nat)
    requires p <= |s|
    requires forall k :: 0 <= k < p ==> NumeralChar(s[k])
    requires p == |s| || !NumeralChar(s[p])
    ensures NumeralPrefix(s) == p
  {
    if p > 0 {
      NumeralPrefixAt(s[1..], p - 1);
    }
  }

  /** What the recogniser accepts, the pattern matches. */
  lemma CssLengthSound(s: string)
    requires IsCssLength(s)
    ensures CssLengthMatch(s)
  {
    var start := if s != [] && s[0] == '-' then 1 else 0;
    var p := start + NumeralPrefix(s[start..]);
    NumeralCorrect(s[start..p]);
    assert Lower(s[p..]) in Units;
  }

  /** A numeral without sign, then a unit from `q` on: the recogniser accepts. */
  lemma CssLengthUnsigned(s: string, q: nat)
    requires q <= |s| && Lower(s[q..]) in Units && NumeralMatch(s[..q])
    ensures IsCssLength(s)
  {
    UnitStart(s[q..]);
    assert s[q..][0] == s[q];
    NumeralChars(s[..q]);
    NumeralDoesNotStartWithMinus(s[..q]);
    forall k | 0 <= k < q ensures NumeralChar(s[k]) {
      assert s[k] == s[..q][k];
    }
    NumeralPrefixAt(s, q);
    assert s[0..q] == s[..q];
    assert s[0..] == s;
    NumeralCorrect(s[..q]);
  }

  /** A minus sign, a numeral, then a unit from `q` on: the recogniser accepts. */
  lemma CssLengthSigned(s: string, q: nat)
    requires 0 < q <= |s| && s[0] == '-' && Lower(s[q..]) in Units && NumeralMatch(s[1..q])
    ensures IsCssLength(s)
  {
    UnitStart(s[q..]);
    assert s[q..][0] == s[q];
    NumeralChars(s[1..q]);
    forall k | 0 <= k < q - 1 ensures NumeralChar(s[1..][k]) {
      assert s[1..][k] == s[1..q][k];
    }
    NumeralPrefixAt(s[1..], q - 1);
    NumeralCorrect(s[1..q]);
  }

  /** The recogniser accepts exactly the strings the pattern matches. */
  lemma CssLengthCorrect(s: string)
    ensures IsCssLength(s) <==> CssLengthMatch(s)
  {
    if IsCssLength(s) {
      CssLengthSound(s);
    }
    if CssLengthMatch(s) {
      var q :| 0 <= q <= |s| && Lower(s[q..]) in Units &&
        (NumeralMatch(s[..q]) || (0 < q && s[0] == '-' && NumeralMatch(s[1..q])));
      if NumeralMatch(s[..q]) {
        CssLengthUnsigned(s, q);
      } else {
        CssLengthSigned(s, q);
      }
    }
  }

  lemma NumeralDoesNotStartWithMinus(t: string)
    requires NumeralMatch(t)
    ensures t != [] && t[0] != '-'
  {
    NumeralChars(t);
  }

  /**
   * parseCSSValue: the default for an absent value; `<number>px` when the trimmed value is
   * exactly a number as JavaScript prints it; the trimmed value when it is a number with a
   * CSS unit; otherwise the value unchanged.
   */
  function ParseCssValue(value: Option<string>, default: string, number: string -> Option<real>,
                         show: real -> string): (r: string)
    ensures !Given(value) ==> r == default
    ensures Given(value) ==>
      var n := number(value.value);
      var t := Trim(value.value);
      && (n.Some? && show(n.value) == t ==> r == t + "px")
      && (!(n.Some? && show(n.value) == t) && CssLengthMatch(t) ==> r == t)
      && (!(n.Some? && show(n.value) == t) && !CssLengthMatch(t) ==> r == value.value)
  {
    if !Given(value) then default
    else
      var n := number(value.value);
      var t := Trim(value.value);
      CssLengthCorrect(t);
      if n.Some? && show(n.value) == t then show(n.value) + "px"
      else if IsCssLength(t) then t
      else value.value
  }

  /** A number with a unit comes back trimmed, and trimming it again changes nothing. */
  lemma CssLengthComesBackTrimmed(v: string, number: string -> Option<real>, show: real -> string)
    requires v != "" && (number(v).None? || show(number(v).value) != Trim(v))
    requires CssLengthMatch(Trim(v))
    ensures var r := ParseCssValue(Some(v), "", number, show);
      r == Trim(v) && Trim(r) == r
  {
    TrimIdempotent(v);
  }
}
