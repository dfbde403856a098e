/**
 * The message tree the router receives from the server, and the small
 * attribute helpers the handlers use on it: DOM attribute reads, Java's
 * `Integer.parseInt` and `Boolean.parseBoolean`, the child search
 * `selectElement`, and the packing of several replies into one.
 */
module Dom {

  datatype Option<T> = None | Some(value: T)

  datatype Result<T, E> = Success(value: T) | Failure(error: E)

  /** A DOM element: its tag name, its attributes and its child elements, in order. */
  datatype Element = Element(tag: string, attrs: map<string, string>, children: seq<Element>)

  /** `Element.getAttribute`: a missing attribute reads as the empty string. */
  function Attr(e: Element, name: string): string
  {
    if name in e.attrs then e.attrs[name] else ""
  }

  /** An attribute as the message wrapper classes keep it: absent (null) when not present. */
  function OptAttr(e: Element, name: string): Option<string>
  {
    if name in e.attrs then Some(e.attrs[name]) else None
  }

  /** `FreeColObject.readId`: the "id" attribute. */
  function ReadId(e: Element): string
  {
    Attr(e, "id")
  }

  // ---------------------------------------------------------------------
  // String comparisons used by the handlers

  /** Upper-case ASCII letters folded to lower case; every other character unchanged. */
  function Lower(c: char): char
  {
    if 'A' <= c <= 'Z' then (c as int + 32) as char else c
  }

  /**
   * `String.equalsIgnoreCase`, folding ASCII letters only.  The router only
   * compares against the ASCII keywords "add" and "true", for which no other
   * character folds onto one of their letters.
   */
  predicate EqualsIgnoreCase(a: string, b: string)
  {
    |a| == |b| && forall i :: 0 <= i < |a| ==> Lower(a[i]) == Lower(b[i])
  }

  /** `Boolean.parseBoolean`: true exactly for "true" in any letter case. */
  predicate ParseBoolean(s: string)
  {
    EqualsIgnoreCase(s, "true")
  }

  /** `Boolean.toString`, as a reply attribute carries a decision. */
  function BoolString(b: bool): (s: string)
    ensures ParseBoolean(s) == b
  {
    if b then "true" else "false"
  }

  // ---------------------------------------------------------------------
  // Integer.parseInt

  const MinInt: int := -0x8000_0000
  const MaxInt: int := 0x7fff_ffff

  predicate IsDigit(c: char)
  {
    '0' <= c <= '9'
  }

  predicate AllDigits(s: string)
  {
    forall i :: 0 <= i < |s| ==> IsDigit(s[i])
  }

  /** The value of a string of decimal digits, most significant first. */
  function DigitsValue(s: string): nat
    requires AllDigits(s)
  {
    if s == [] then 0
    else DigitsValue(s[..|s| - 1]) * 10 + (s[|s| - 1] as int - '0' as int)
  }

  /**
   * `Integer.parseInt(s)` with radix 10: an optional '+' or '-', then one
   * or more digits, and a value inside the 32-bit range; anything else is a
   * `NumberFormatException`, here `None`.
   */
  function ParseInt(s: string): (r: Option<int>)
    ensures r.Some? ==> MinInt <= r.value <= MaxInt
    ensures s == "" || s == "-" || s == "+" ==> r.None?
    ensures |s| > 0 && s[0] != '-' && s[0] != '+' && !IsDigit(s[0]) ==> r.None?
    ensures |s| > 1 && (s[0] == '-' || s[0] == '+') && !IsDigit(s[1]) ==> r.None?
    ensures r.Some? && r.value < 0 ==> s[0] == '-'
  {
    if s == [] then None
    else
      var digits := if s[0] == '-' || s[0] == '+' then s[1..] else s;
      if digits == [] || !AllDigits(digits) then None
      else
        var k: int := DigitsValue(digits);
        var v := if s[0] == '-' then -k else k;
        if MinInt <= v <= MaxInt then Some(v) else None
  }

  /**
   * `getIntegerAttribute`: the parsed attribute, or `Integer.MIN_VALUE` when
   * it does not parse (a missing attribute reads as "" and does not parse).
   */
  function GetIntegerAttribute(e: Element, name: string): (n: int)
    ensures MinInt <= n <= MaxInt
    ensures ParseInt(Attr(e, name)).None? ==> n == MinInt
    ensures name !in e.attrs ==> n == MinInt
  {
    match ParseInt(Attr(e, name))
    case Some(v) => v
    case None => MinInt
  }

  /** The decimal digits of a natural number, as `Integer.toString` writes them. */
  function NatDigits(k: nat): (s: string)
    ensures s != []
  {
    if k < 10 then [('0' as int + k) as char]
    else NatDigits(k / 10) + [('0' as int + k % 10) as char]
  }

  /** `Integer.toString(n)`. */
  function Decimal(n: int): string
  {
    if n < 0 then ['-'] + NatDigits(-n) else NatDigits(n)
  }

  lemma {:induction false} NatDigitsValue(k: nat)
    ensures AllDigits(NatDigits(k)) && DigitsValue(NatDigits(k)) == k
  {
    if k >= 10 {
      NatDigitsValue(k / 10);
      var s := NatDigits(k);
      assert s[..|s| - 1] == NatDigits(k / 10);
    }
  }

  /**
   * An integer written with `Integer.toString` reads back unchanged when it
   * is inside the 32-bit range, and is rejected as an overflow otherwise.
   */
  lemma ParseIntRoundTrip(n: int)
    ensures ParseInt(Decimal(n)) == if MinInt <= n <= MaxInt then Some(n) else None
  {
    var k: nat := if n < 0 then -n else n;
    NatDigitsValue(k);
    ParseSigned(n < 0, NatDigits(k));
  }

  /** `parseInt` on digits, with or without a leading '-'. */
  lemma ParseSigned(neg: bool, digits: string)
    requires digits != [] && AllDigits(digits)
    ensures var v: int := if neg then -(DigitsValue(digits) as int) else DigitsValue(digits) as int;
      ParseInt((if neg then ['-'] else []) + digits) == if MinInt <= v <= MaxInt then Some(v) else None
  {
    var k: int := DigitsValue(digits);
    assert IsDigit(digits[0]);
    if neg {
      var s := ['-'] + digits;
      assert s[0] == '-' && s[1..] == digits;
      assert ParseInt(s) == if MinInt <= -k <= MaxInt then Some(-k) else None;
    } else {
      assert digits[0] != '-' && digits[0] != '+';
      assert ParseInt(digits) == if MinInt <= k <= MaxInt then Some(k) else None;
      assert [] + digits == digits;
    }
  }

  /** A turn or migrant count the server writes as a number reads back as that number. */
  lemma GetIntegerAttributeRoundTrip(e: Element, name: string, n: int)
    requires MinInt <= n <= MaxInt
    requires name in e.attrs && e.attrs[name] == Decimal(n)
    ensures GetIntegerAttribute(e, name) == n
  {
    ParseIntRoundTrip(n);
  }

  // ---------------------------------------------------------------------
  // Child selection

  /** The position of the first child whose identifier is `key`; `|kids|` when there is none. */
  function FirstIndex(kids: seq<Element>, key: string): (i: nat)
    ensures i <= |kids|
    ensures i < |kids| ==> ReadId(kids[i]) == key
    ensures forall j :: 0 <= j < i ==> ReadId(kids[j]) != key
  {
    if kids == [] then 0
    else if ReadId(kids[0]) == key then 0
    else 1 + FirstIndex(kids[1..], key)
  }

  /** The first child whose identifier is `key`, if there is one. */
  function FindById(kids: seq<Element>, key: string): (r: Option<Element>)
    ensures r.None? <==> forall i :: 0 <= i < |kids| ==> ReadId(kids[i]) != key
    ensures r.Some? ==> r.value in kids && ReadId(r.value) == key
  {
    var i := FirstIndex(kids, key);
    if i < |kids| then Some(kids[i]) else None
  }

  /** The child found is the first one carrying the identifier: every child before it carries another. */
  lemma FindByIdFirst(kids: seq<Element>, key: string, i: nat)
    requires i < |kids| && ReadId(kids[i]) == key
    requires forall j :: 0 <= j < i ==> ReadId(kids[j]) != key
    ensures FindById(kids, key) == Some(kids[i])
  {
    var f := FirstIndex(kids, key);
    assert f <= i;
    assert f < |kids| && ReadId(kids[f]) == key;
  }

  /**
   * `selectElement`: scans the children of `parent` in order and returns the
   * first one whose identifier equals `key`.
   */
  method SelectElement(parent: Element, key: string) returns (r: Option<Element>)
    ensures r == FindById(parent.children, key)
    ensures r.Some? ==> r.value in parent.children && ReadId(r.value) == key
    ensures r.None? ==> forall e :: e in parent.children ==> ReadId(e) != key
  {
    var nodes := parent.children;
    var i := 0;
    while i < |nodes|
      invariant 0 <= i <= FirstIndex(nodes, key)
    {
      var e := nodes[i];
      if key == ReadId(e) {
        return Some(e);
      }
      i := i + 1;
    }
    return None;
  }

  // ---------------------------------------------------------------------
  // Reply packing

  /**
   * `DOMMessage.collapseElements`: no replies is no reply, one reply is sent
   * as it is, several are wrapped, in order, in one "multiple" element.
   */
  function Collapse(rs: seq<Element>): (r: Option<Element>)
    ensures r.None? <==> rs == []
    ensures r.Some? ==> Unpack(r.value, |rs|) == rs
  {
    if rs == [] then None
    else if |rs| == 1 then Some(rs[0])
    else Some(Element("multiple", map[], rs))
  }

  /** The replies a collapsed batch of `n` replies carries. */
  function Unpack(e: Element, n: nat): seq<Element>
  {
    if n == 1 then [e] else e.children
  }
}
