// The Python built-ins the adapters and handlers lean on: dynamic values and
// their truthiness, `str.strip`, `str.lower`, `str.isdigit`, `int(str)` and
// `str(int)`. Only what the core needs is modelled.
module PyValues {
  import opened Wrappers

  /** A value as the router adapters receive it: decoded JSON from the REST
      interface, or the typed words of the binary API. */
  datatype PyVal =
    | PNone
    | PBool(b: bool)
    | PInt(i: int)
    | PStr(s: string)
    | PList(items: seq<PyVal>)
    | PDict(entries: map<string, PyVal>)

  /** `bool(v)` */
  predicate Truthy(v: PyVal) {
    match v
    case PNone => false
    case PBool(b) => b
    case PInt(i) => i != 0
    case PStr(s) => s != ""
    case PList(xs) => xs != []
    case PDict(m) => m != map[]
  }

  /** `a or b` */
  function Or(a: PyVal, b: PyVal): PyVal {
    if Truthy(a) then a else b
  }

  /** `d.get(key, default)` */
  function Get(d: map<string, PyVal>, key: string, default: PyVal): PyVal {
    if key in d then d[key] else default
  }

  // ---------------------------------------------------------------------------
  // Characters and strings

  /** The characters for which `str.isspace()` holds, i.e. what `str.strip()`
      removes when called without arguments. */
  const Whitespace: set<char> := {
    ' ', '\t', '\n', '\r', '\U{0B}', '\U{0C}', '\U{1C}', '\U{1D}', '\U{1E}', '\U{1F}',
    '\U{85}', '\U{A0}', '\U{1680}', '\U{2000}', '\U{2001}', '\U{2002}', '\U{2003}',
    '\U{2004}', '\U{2005}', '\U{2006}', '\U{2007}', '\U{2008}', '\U{2009}', '\U{200A}',
    '\U{2028}', '\U{2029}', '\U{202F}', '\U{205F}', '\U{3000}'
  }

  function TrimStart(s: string): string
    decreases |s|
  {
    if s != [] && s[0] in Whitespace then TrimStart(s[1..]) else s
  }

  function TrimEnd(s: string): string
    decreases |s|
  {
    if s != [] && s[|s| - 1] in Whitespace then TrimEnd(s[..|s| - 1]) else s
  }

  /** `s.strip()` */
  function Strip(s: string): string {
    TrimEnd(TrimStart(s))
  }

  /** A string that neither starts nor ends with whitespace is its own strip. */
  lemma StripUnpadded(s: string)
    requires s == [] || (s[0] !in Whitespace && s[|s| - 1] !in Whitespace)
    ensures Strip(s) == s
  {
  }

  /** One space on either side of an unpadded string is stripped away. */
  lemma StripSpaced(t: string)
    requires t != [] && t[0] !in Whitespace && t[|t| - 1] !in Whitespace
    ensures Strip(" " + t + " ") == t
  {
    var s := " " + t + " ";
    assert ' ' in Whitespace;
    assert s[1..] == t + " ";
    assert TrimStart(s) == TrimStart(t + " ");
    assert (t + " ")[0] == t[0];
    assert TrimStart(t + " ") == t + " ";
    assert (t + " ")[..|t|] == t;
    assert TrimEnd(t + " ") == TrimEnd(t);
  }

  /** Nothing but whitespace. */
  predicate AllSpace(s: string) {
    forall i | 0 <= i < |s| :: s[i] in Whitespace
  }

  lemma {:induction false} TrimStartPadded(pre: string, t: string)
    requires AllSpace(pre) && t != [] && t[0] !in Whitespace
    ensures TrimStart(pre + t) == t
    decreases |pre|
  {
    if pre != [] {
      assert (pre + t)[1..] == pre[1..] + t;
      TrimStartPadded(pre[1..], t);
    } else {
      assert pre + t == t;
    }
  }

  lemma {:induction false} TrimEndPadded(t: string, post: string)
    requires AllSpace(post) && t != [] && t[|t| - 1] !in Whitespace
    ensures TrimEnd(t + post) == t
    decreases |post|
  {
    if post != [] {
      var init := post[..|post| - 1];
      assert (t + post)[..|t + post| - 1] == t + init;
      TrimEndPadded(t, init);
    } else {
      assert t + post == t;
    }
  }

  /** Any whitespace on either side of an unpadded string is stripped away. */
  lemma StripPadded(pre: string, t: string, post: string)
    requires AllSpace(pre) && AllSpace(post)
    requires t != [] && t[0] !in Whitespace && t[|t| - 1] !in Whitespace
    ensures Strip(pre + t + post) == t
  {
    assert pre + t + post == pre + (t + post);
    TrimStartPadded(pre, t + post);
    TrimEndPadded(t, post);
  }

  function LowerChar(c: char): char {
    if 'A' <= c <= 'Z' then (c as int + 32) as char else c
  }

  /** `s.lower()` restricted to ASCII letters. Every string the model compares
      a lowered value against is ASCII without the letter k, and no non-ASCII
      character lowers to such a string, so membership tests are exact. */
  function Lower(s: string): string
    decreases |s|
  {
    if s == [] then [] else [LowerChar(s[0])] + Lower(s[1..])
  }

  predicate IsDigit(c: char) {
    '0' <= c <= '9'
  }

  function DigitValue(c: char): nat
    requires IsDigit(c)
  {
    c as int - '0' as int
  }

  function DigitChar(d: nat): char
    requires d < 10
  {
    ('0' as int + d) as char
  }

  predicate AllDigits(s: string) {
    forall i | 0 <= i < |s| :: IsDigit(s[i])
  }

  /** `s.isdigit()` for ASCII digits: non-empty and nothing but digits. */
  predicate IsDigitString(s: string) {
    s != [] && AllDigits(s)
  }

  /** The decimal value of a run of digits, most significant first. */
  function DigitsValue(s: string): nat
    requires AllDigits(s)
    decreases |s|
  {
    if s == [] then 0 else DigitsValue(s[..|s| - 1]) * 10 + DigitValue(s[|s| - 1])
  }

  /** `str(n)` for n >= 0 */
  function NatStr(n: nat): (r: string)
    ensures r != [] && AllDigits(r)
    decreases n
  {
    if n < 10 then [DigitChar(n)] else NatStr(n / 10) + [DigitChar(n % 10)]
  }

  /** `str(n)` */
  function IntStr(n: int): string {
    if n < 0 then "-" + NatStr(-n) else NatStr(n)
  }

  lemma {:induction false} NatStrValue(n: nat)
    ensures DigitsValue(NatStr(n)) == n
    decreases n
  {
    if n >= 10 {
      NatStrValue(n / 10);
      var s := NatStr(n);
      assert s[..|s| - 1] == NatStr(n / 10);
    }
  }

  // ---------------------------------------------------------------------------
  // int(...)

  /** Digits, possibly grouped by single underscores, as `int(str)` accepts
      after the sign. */
  predicate WellFormedNumeral(t: string) {
    && t != []
    && IsDigit(t[0])
    && IsDigit(t[|t| - 1])
    && (forall i | 0 <= i < |t| :: IsDigit(t[i]) || t[i] == '_')
    && (forall i | 0 <= i < |t| - 1 :: t[i] == '_' ==> t[i + 1] != '_')
  }

  function DropUnderscores(t: string): (r: string)
    requires forall i | 0 <= i < |t| :: IsDigit(t[i]) || t[i] == '_'
    ensures AllDigits(r)
    decreases |t|
  {
    if t == [] then []
    else (if t[0] == '_' then [] else [t[0]]) + DropUnderscores(t[1..])
  }

  /** `int(s)` for a string in base 10: surrounding whitespace, an optional
      sign, and digits grouped by single underscores; None where Python raises
      ValueError. */
  function ParseInt(s: string): Option<int> {
    ParseStripped(Strip(s))
  }

  /** `int` of an already stripped string. */
  function ParseStripped(t: string): Option<int> {
    if t != [] && (t[0] == '+' || t[0] == '-') then
      match ParseUnsigned(t[1..])
      case None => None
      case Some(n) => Some(if t[0] == '-' then -n else n)
    else ParseUnsigned(t)
  }

  /** The value of digits grouped by underscores, without a sign. */
  function ParseUnsigned(t: string): Option<int> {
    if WellFormedNumeral(t) then Some(DigitsValue(DropUnderscores(t))) else None
  }

  /** `int(v)`: None where Python raises (ValueError or TypeError). */
  function IntOf(v: PyVal): Option<int> {
    match v
    case PInt(i) => Some(i)
    case PBool(b) => Some(if b then 1 else 0)
    case PStr(s) => ParseInt(s)
    case _ => None
  }

  lemma {:induction false} DropUnderscoresOfDigits(t: string)
    requires AllDigits(t)
    ensures DropUnderscores(t) == t
    decreases |t|
  {
    if t != [] {
      DropUnderscoresOfDigits(t[1..]);
    }
  }

  /** Plain digits read back as their decimal value. */
  lemma ParseUnsignedDigits(t: string)
    requires IsDigitString(t)
    ensures ParseUnsigned(t) == Some(DigitsValue(t) as int)
  {
    DropUnderscoresOfDigits(t);
  }

  lemma DigitIsNotSpace(c: char)
    requires IsDigit(c)
    ensures c !in Whitespace
  {
  }

  /** A digit string is its own strip. */
  lemma DigitStringUnpadded(t: string)
    requires IsDigitString(t)
    ensures Strip(t) == t
  {
    DigitIsNotSpace(t[0]);
    DigitIsNotSpace(t[|t| - 1]);
    StripUnpadded(t);
  }

  lemma ParseDigitString(t: string)
    requires IsDigitString(t)
    ensures ParseInt(t) == Some(DigitsValue(t))
  {
    ParseUnsignedDigits(t);
    DigitStringUnpadded(t);
    assert t[0] != '+' && t[0] != '-';
  }

  /** A minus sign followed by a string that does not end in whitespace is
      its own strip. */
  lemma SignedUnpadded(t: string)
    requires t != [] && t[|t| - 1] !in Whitespace
    ensures Strip("-" + t) == "-" + t
  {
    var s := "-" + t;
    assert s[|s| - 1] == t[|t| - 1];
    assert '-' !in Whitespace;
    StripUnpadded(s);
  }

  /** A minus sign negates what the rest reads as. */
  lemma ParseStrippedNegative(t: string, v: int)
    requires ParseUnsigned(t) == Some(v)
    ensures ParseStripped("-" + t) == Some(-v)
  {
    var s := "-" + t;
    assert s[0] == '-' && s[1..] == t;
  }

  /** `int` of a string that is its own strip. */
  lemma ParseUnpadded(s: string)
    requires Strip(s) == s
    ensures ParseInt(s) == ParseStripped(s)
  {
  }

  lemma NegativeIntStrRoundTrip(n: int)
    requires n < 0
    ensures ParseInt(IntStr(n)) == Some(n)
  {
    var t := NatStr(-n);
    assert IntStr(n) == "-" + t;
    NatStrValue(-n);
    ParseUnsignedDigits(t);
    ParseStrippedNegative(t, -n);
    DigitIsNotSpace(t[|t| - 1]);
    SignedUnpadded(t);
    ParseUnpadded("-" + t);
  }

  lemma IntStrRoundTrip(n: int)
    ensures ParseInt(IntStr(n)) == Some(n)
  {
    if n < 0 {
      NegativeIntStrRoundTrip(n);
    } else {
      NatStrValue(n);
      ParseDigitString(NatStr(n));
    }
  }

  /** Distinct integers render to distinct strings. */
  lemma IntStrInjective(a: int, b: int)
    requires IntStr(a) == IntStr(b)
    ensures a == b
  {
    IntStrRoundTrip(a);
    IntStrRoundTrip(b);
  }
}
