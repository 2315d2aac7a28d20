/** JavaScript value semantics that the handlers rely on: optional values,
    numbers produced by `Number(...)`, string truthiness, `String.prototype.trim`,
    `toLowerCase`, the `Number.isFinite ? Math.min(Math.max(..)) : default`
    clamp, and decimal rendering of naturals. */
module Js {

  datatype Option<+T> = None | Some(value: T)

  /** A value produced by `Number(...)`. Only integral finite values are modelled. */
  datatype JsNumber = NaN | PosInfinity | NegInfinity | Finite(value: int)

  /** `!!s` for a string that may be absent (`undefined`/`null`): present and non-empty. */
  predicate Truthy(s: Option<string>) {
    s.Some? && s.value != ""
  }

  // ---------------------------------------------------------------------------
  // Number.isFinite(p) ? Math.min(Math.max(p, lo), hi) : dflt

  /** `Number(param ?? dflt)` followed by the finite-clamp used for query limits:
      an absent parameter parses to the default, a non-finite one falls back to it,
      and a finite one is clamped into [lo, hi]. */
  function ClampParam(param: Option<JsNumber>, dflt: int, lo: int, hi: int): (r: int)
    requires lo <= dflt <= hi
    ensures lo <= r <= hi
    ensures param.None? ==> r == dflt
    ensures param.Some? && !param.value.Finite? ==> r == dflt
    ensures param.Some? && param.value.Finite? && lo <= param.value.value <= hi ==> r == param.value.value
    ensures param.Some? && param.value.Finite? && param.value.value < lo ==> r == lo
    ensures param.Some? && param.value.Finite? && hi < param.value.value ==> r == hi
  {
    var p := if param.None? then Finite(dflt) else param.value;
    if p.Finite? then Min(Max(p.value, lo), hi) else dflt
  }

  function Max(a: int, b: int): int { if a < b then b else a }
  function Min(a: int, b: int): int { if a < b then a else b }

  // ---------------------------------------------------------------------------
  // String.prototype.trim

  /** The WhiteSpace and LineTerminator code points that `trim` removes. */
  predicate IsSpace(c: char) {
    || c == ' ' || c == '\t' || c == '\n' || c == '\r'
    || c == '\U{000B}' || c == '\U{000C}' || c == '\U{00A0}' || c == '\U{1680}'
    || ('\U{2000}' <= c <= '\U{200A}')
    || c == '\U{2028}' || c == '\U{2029}' || c == '\U{202F}' || c == '\U{205F}'
    || c == '\U{3000}' || c == '\U{FEFF}'
  }

  predicate AllSpace(s: string) {
    forall i :: 0 <= i < |s| ==> IsSpace(s[i])
  }

  /** No whitespace at either end. */
  predicate Unpadded(s: string) {
    s != [] ==> !IsSpace(s[0]) && !IsSpace(s[|s| - 1])
  }

  /** The number of whitespace characters `s` starts with. */
  function Leading(s: string): (n: nat)
    ensures n <= |s|
    ensures forall i :: 0 <= i < n ==> IsSpace(s[i])
    ensures n < |s| ==> !IsSpace(s[n])
  {
    if s != [] && IsSpace(s[0]) then 1 + Leading(s[1..]) else 0
  }

  /** The number of whitespace characters `s` ends with. */
  function Trailing(s: string): (n: nat)
    ensures n <= |s|
    ensures forall i :: |s| - n <= i < |s| ==> IsSpace(s[i])
    ensures n < |s| ==> !IsSpace(s[|s| - 1 - n])
  {
    if s != [] && IsSpace(s[|s| - 1]) then 1 + Trailing(s[..|s| - 1]) else 0
  }

  /** `s.trim()`: the infix of `s` left after dropping its leading and trailing
      whitespace; it has no whitespace at either end, and everything dropped is
      whitespace. */
  function Trim(s: string): (r: string)
    ensures Unpadded(r)
    ensures var i := Leading(s);
            && i + |r| <= |s| && r == s[i..i + |r|]
            && (forall j :: 0 <= j < i ==> IsSpace(s[j]))
            && (forall j :: i + |r| <= j < |s| ==> IsSpace(s[j]))
  {
    var i := Leading(s);
    if i == |s| then ""
    else
      var k := Trailing(s);
      assert !IsSpace(s[i]);
      s[i..|s| - k]
  }

  /** `Leading` is the index of the first non-whitespace character, or the length
      when there is none. */
  lemma {:induction false} LeadingIs(s: string, i: nat)
    requires i <= |s|
    requires forall j :: 0 <= j < i ==> IsSpace(s[j])
    requires i < |s| ==> !IsSpace(s[i])
    ensures Leading(s) == i
  {
    if i > 0 {
      assert IsSpace(s[0]);
      var t := s[1..];
      assert forall j :: 0 <= j < i - 1 ==> t[j] == s[j + 1];
      assert i - 1 < |t| ==> t[i - 1] == s[i];
      LeadingIs(t, i - 1);
    }
  }

  /** `trim` is determined by its contract: an unpadded infix of `s` with only
      whitespace around it is `s.trim()`. */
  lemma TrimUnique(s: string, i: nat, k: nat)
    requires i + k <= |s|
    requires forall j :: 0 <= j < i ==> IsSpace(s[j])
    requires forall j :: i + k <= j < |s| ==> IsSpace(s[j])
    requires Unpadded(s[i..i + k])
    ensures Trim(s) == s[i..i + k]
  {
    var r := Trim(s);
    if k == 0 {
      LeadingIs(s, |s|);
    } else {
      var w := s[i..i + k];
      assert w[0] == s[i] && w[k - 1] == s[i + k - 1];
      LeadingIs(s, i);
      assert !IsSpace(s[i + k - 1]);
      assert |r| >= k;
      assert r[|r| - 1] == s[i + |r| - 1];
      assert !IsSpace(s[i + |r| - 1]);
      assert |r| == k;
    }
  }

  /** Surrounding whitespace never changes the result of `trim`. */
  lemma TrimIgnoresPadding(ws1: string, s: string, ws2: string)
    requires AllSpace(ws1) && AllSpace(ws2)
    ensures Trim(ws1 + s + ws2) == Trim(s)
  {
    var t := ws1 + s + ws2;
    var r := Trim(s);
    var i := |ws1| + Leading(s);
    assert t[i..i + |r|] == r;
    forall j | 0 <= j < i
      ensures IsSpace(t[j])
    {
      if j >= |ws1| {
        assert t[j] == s[j - |ws1|];
      }
    }
    forall j | i + |r| <= j < |t|
      ensures IsSpace(t[j])
    {
      if j < |ws1| + |s| {
        assert t[j] == s[j - |ws1|];
      }
    }
    TrimUnique(t, i, |r|);
  }

  /** `value?.trim() || null`: the trimmed text, or null when absent or blank. */
  function TrimmedOrNull(value: Option<string>): (r: Option<string>)
    ensures r.None? <==> value.None? || AllSpace(value.value)
    ensures r.Some? ==> r.value != "" && Unpadded(r.value)
    ensures r.Some? ==> r.value == Trim(value.value)
  {
    if value.None? then None
    else
      var t := Trim(value.value);
      if t == "" then None
      else
        assert !IsSpace(value.value[Leading(value.value)]);
        Some(t)
  }

  /** `trim` is idempotent. */
  lemma TrimIdempotent(s: string)
    ensures Trim(Trim(s)) == Trim(s)
  {
    var r := Trim(s);
    assert r[0..|r|] == r;
    TrimUnique(r, 0, |r|);
  }

  // ---------------------------------------------------------------------------
  // String.prototype.toLowerCase (ASCII letters only)

  function LowerChar(c: char): (d: char)
    ensures IsSpace(d) <==> IsSpace(c)
    ensures 'A' <= c <= 'Z' ==> 'a' <= d <= 'z'
    ensures !('A' <= c <= 'Z') ==> d == c
  {
    if 'A' <= c <= 'Z' then (c as int - 'A' as int + 'a' as int) as char else c
  }

  function ToLowerCase(s: string): (r: string)
    ensures |r| == |s|
    ensures forall i :: 0 <= i < |s| ==> r[i] == LowerChar(s[i])
  {
    seq(|s|, i requires 0 <= i < |s| => LowerChar(s[i]))
  }

  lemma ToLowerCaseIdempotent(s: string)
    ensures ToLowerCase(ToLowerCase(s)) == ToLowerCase(s)
  {
  }

  lemma ToLowerCaseSlice(s: string, i: int, j: int)
    requires 0 <= i <= j <= |s|
    ensures ToLowerCase(s[i..j]) == ToLowerCase(s)[i..j]
  {
  }

  /** Lower-casing and trimming commute, because lower-casing maps whitespace
      to itself and non-whitespace to non-whitespace. */
  lemma TrimLower(s: string)
    ensures Trim(ToLowerCase(s)) == ToLowerCase(Trim(s))
  {
    var r := Trim(s);
    var i := Leading(s);
    var t := ToLowerCase(s);
    ToLowerCaseSlice(s, i, i + |r|);
    var u := t[i..i + |r|];
    assert u == ToLowerCase(r);
    assert u != [] ==> u[0] == LowerChar(r[0]) && u[|u| - 1] == LowerChar(r[|r| - 1]);
    assert forall j :: 0 <= j < |t| ==> (IsSpace(t[j]) <==> IsSpace(s[j]));
    TrimUnique(t, i, |r|);
  }

  // ---------------------------------------------------------------------------
  // Decimal rendering (template-literal interpolation of a non-negative integer)

  function DigitChar(d: nat): (c: char)
    requires d < 10
    ensures '0' <= c <= '9'
  {
    ('0' as int + d) as char
  }

  /** `String(n)` for a natural number. */
  function NatToString(n: nat): (s: string)
    ensures s != []
    ensures forall i :: 0 <= i < |s| ==> '0' <= s[i] <= '9'
    ensures n == 0 <==> s == "0"
  {
    if n < 10 then [DigitChar(n)] else NatToString(n / 10) + [DigitChar(n % 10)]
  }

  /** `String(n)` for an integer. */
  function IntToString(n: int): (s: string)
    ensures s != []
    ensures s[0] == '-' <==> n < 0
  {
    if n < 0 then "-" + NatToString(-n) else NatToString(n)
  }
}
