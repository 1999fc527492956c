/**
  JSON documents as Python's json module decodes them, together with the
  views of a decoded value that the collectors rely on: the number Python's
  comparison and arithmetic operators see, and what the builtin int() makes
  of it. Counts in the video platform's replies arrive as decimal strings,
  so int() on a string is modelled with its grammar.
 */
module Json {
  import opened Wrappers

  datatype Value =
    | Null
    | Bool(b: bool)
    | Int(i: int)
    | Real(r: real)
    | Text(s: string)
    | List(items: seq<Value>)
    | Obj(fields: map<string, Value>)

  /** An HTTP exchange: `Raised` when the request, or decoding a 200 body, raised. */
  datatype HttpReply = Raised | Response(status: int, body: Value)

  /** dict.get(key, default) */
  function Get(fields: map<string, Value>, key: string, default: Value): Value
  {
    if key in fields then fields[key] else default
  }

  /** The number `<`, `*`, `+` and `/` operate on; None where they raise TypeError (bool is an int). */
  function Number(v: Value): Option<real>
  {
    match v
    case Bool(b) => Some(if b then 1.0 else 0.0)
    case Int(i) => Some(i as real)
    case Real(r) => Some(r)
    case _ => None
  }

  /**
    Python's `==` on decoded values: numbers compare by value whatever their
    type (True == 1 == 1.0), lists position by position, dictionaries key by
    key; values of different kinds are unequal.
   */
  predicate PyEq(a: Value, b: Value)
  {
    match a
    case Null => b.Null?
    case Text(s) => b.Text? && b.s == s
    case List(xs) => b.List? && |xs| == |b.items| && forall i :: 0 <= i < |xs| ==> PyEq(xs[i], b.items[i])
    case Obj(f) => b.Obj? && f.Keys == b.fields.Keys && forall k :: k in f ==> PyEq(f[k], b.fields[k])
    case _ => Number(b).Some? && Number(a) == Number(b)
  }

  /** Python's `==` on two dictionaries: the same keys, and equal values under each. */
  predicate FieldsEq(f: map<string, Value>, g: map<string, Value>)
  {
    PyEq(Obj(f), Obj(g))
  }

  /** Every value equals itself under Python's `==`. */
  lemma {:induction false} PyEqReflexive(v: Value)
    ensures PyEq(v, v)
  {
    match v
    case List(xs) =>
      forall i | 0 <= i < |xs|
        ensures PyEq(xs[i], xs[i])
      {
        PyEqReflexive(xs[i]);
      }
    case Obj(f) =>
      forall k | k in f
        ensures PyEq(f[k], f[k])
      {
        PyEqReflexive(f[k]);
      }
    case _ =>
  }

  lemma FieldsEqReflexive(f: map<string, Value>)
    ensures FieldsEq(f, f)
  {
    PyEqReflexive(Obj(f));
  }

  /** Python's `==` is coarser than equality of decoded values: an integer equals the float of the same value. */
  lemma IntEqualsItsFloat(i: int)
    ensures PyEq(Int(i), Real(i as real)) && Int(i) != Real(i as real)
  {
  }

  /** Truncation toward zero, as int() does to a float. */
  function Trunc(r: real): (n: int)
    ensures 0.0 <= r ==> n >= 0 && n as real <= r < n as real + 1.0
    ensures r < 0.0 ==> n <= 0 && n as real - 1.0 < r <= n as real
  {
    if r >= 0.0 then r.Floor else -((-r).Floor)
  }

  /** The builtin int(v); None where it raises (ValueError or TypeError). */
  function PyInt(v: Value): Option<int>
  {
    match v
    case Bool(b) => Some(if b then 1 else 0)
    case Int(i) => Some(i)
    case Real(r) => Some(Trunc(r))
    case Text(s) => ParseInt(s)
    case _ => None
  }

  predicate IsDigit(c: char) { '0' <= c <= '9' }

  /**
    The whitespace int() strips around its argument: the ASCII characters
    \t, \n, \v, \f, \r and space, and the non-ASCII characters for which
    str.isspace() holds. \x1c to \x1f are not stripped.
   */
  predicate IsSpace(c: char)
  {
    '\t' <= c <= '\r' || c == ' ' || c == '\U{0085}' || c == '\U{00A0}' ||
    c == '\U{1680}' || '\U{2000}' <= c <= '\U{200A}' || c == '\U{2028}' || c == '\U{2029}' ||
    c == '\U{202F}' || c == '\U{205F}' || c == '\U{3000}'
  }

  /** str.strip() with no argument. */
  function Strip(s: string): (t: string)
    ensures |t| <= |s|
    ensures t != [] ==> !IsSpace(t[0]) && !IsSpace(t[|t| - 1])
    decreases |s|
  {
    if s == [] then []
    else if IsSpace(s[0]) then Strip(s[1..])
    else if IsSpace(s[|s| - 1]) then Strip(s[..|s| - 1])
    else s
  }

  /** Python's integer literal grammar without a sign: digit ("_"? digit)*. */
  predicate WellFormedDigits(s: string)
  {
    |s| > 0 && IsDigit(s[0]) && IsDigit(s[|s| - 1]) &&
    (forall i :: 0 <= i < |s| ==> IsDigit(s[i]) || s[i] == '_') &&
    (forall i :: 0 <= i < |s| - 1 ==> s[i] == '_' ==> s[i + 1] != '_')
  }

  /** The value of the digits of s, underscores skipped. */
  function DigitsValue(s: string): nat
  {
    if s == [] then 0
    else if IsDigit(s[|s| - 1]) then DigitsValue(s[..|s| - 1]) * 10 + (s[|s| - 1] as int - '0' as int)
    else DigitsValue(s[..|s| - 1])
  }

  /** int(s) for a string: surrounding whitespace, an optional sign, then digits. */
  function ParseInt(s: string): Option<int>
  {
    var t := Strip(s);
    if |t| > 0 && (t[0] == '+' || t[0] == '-') then
      if WellFormedDigits(t[1..]) then
        var v: int := DigitsValue(t[1..]);
        Some(if t[0] == '-' then -v else v)
      else None
    else if WellFormedDigits(t) then Some(DigitsValue(t))
    else None
  }

  /** A file-separator character is not whitespace to int(): int("\x1c5") raises. */
  lemma SeparatorNotStripped()
    ensures ParseInt("\U{001C}5").None?
  {
    assert !IsSpace('\U{001C}');
    assert Strip("\U{001C}5") == "\U{001C}5";
  }

  /** int() of text raises on blank text, needs a final digit, and gives a negative value only after a minus sign. */
  lemma ParseIntShape(s: string)
    ensures Strip(s) == [] ==> ParseInt(s).None?
    ensures ParseInt(s).Some? ==> IsDigit(Strip(s)[|Strip(s)| - 1])
    ensures ParseInt(s).Some? && ParseInt(s).value < 0 ==> Strip(s)[0] == '-'
  {
  }

  /**
    What int() does per kind of value: a number is truncated toward zero
    (bool counting as 0 or 1), text goes through the literal grammar, and
    None, a list or a dictionary raise TypeError.
   */
  lemma PyIntCases(v: Value)
    ensures Number(v).Some? ==> PyInt(v) == Some(Trunc(Number(v).value))
    ensures Number(v).Some? ==> PyInt(v).Some? && -1.0 < Number(v).value - PyInt(v).value as real < 1.0
    ensures Number(v).Some? && 0.0 <= Number(v).value ==> 0 <= PyInt(v).value
    ensures Number(v).Some? && Number(v).value <= 0.0 ==> PyInt(v).value <= 0
    ensures v.Text? ==> PyInt(v) == ParseInt(v.s)
    ensures v.Null? || v.List? || v.Obj? ==> PyInt(v).None?
  {
  }

  function DigitChar(d: nat): char
    requires d < 10
  {
    ('0' as int + d) as char
  }

  /** str(n) for a natural number. */
  function ShowNat(n: nat): string
  {
    if n < 10 then [DigitChar(n)] else ShowNat(n / 10) + [DigitChar(n % 10)]
  }

  /** str(n): the decimal form the video platform sends its counts in. */
  function Show(n: int): string
  {
    if n < 0 then "-" + ShowNat(-n) else ShowNat(n)
  }

  lemma {:induction false} ShowNatDigits(n: nat)
    ensures |ShowNat(n)| > 0
    ensures forall i :: 0 <= i < |ShowNat(n)| ==> IsDigit(ShowNat(n)[i])
    ensures DigitsValue(ShowNat(n)) == n
  {
    if n >= 10 {
      ShowNatDigits(n / 10);
      var s := ShowNat(n / 10) + [DigitChar(n % 10)];
      assert s[..|s| - 1] == ShowNat(n / 10);
    }
  }

  /** int() of a well-formed digit string is its value. */
  lemma ParseUnsigned(d: string)
    requires WellFormedDigits(d)
    ensures ParseInt(d) == Some(DigitsValue(d))
  {
    assert !IsSpace(d[0]) && !IsSpace(d[|d| - 1]);
    assert Strip(d) == d;
  }

  /** int() of a minus sign followed by a well-formed digit string is the negated value. */
  lemma ParseNegative(d: string)
    requires WellFormedDigits(d)
    ensures ParseInt("-" + d) == Some(-(DigitsValue(d) as int))
  {
    var s := "-" + d;
    assert s[0] == '-' && s[1..] == d;
    assert !IsSpace(s[0]) && !IsSpace(s[|s| - 1]);
    assert Strip(s) == s;
  }

  /** int(str(n)) == n: parsing inverts printing. */
  lemma ParseShow(n: int)
    ensures ParseInt(Show(n)) == Some(n)
  {
    var m := if n < 0 then -n else n;
    ShowNatDigits(m);
    var d := ShowNat(m);
    assert WellFormedDigits(d);
    if n < 0 {
      ParseNegative(d);
    } else {
      ParseUnsigned(d);
    }
  }
}
