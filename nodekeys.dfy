/** The string keys of the node set: a point is stored as the template literal
    `${x},${y}` and read back with split(',').map(Number). */
module NodeKeys {
  import opened Grid

  datatype Option<T> = None | Some(value: T)

  predicate IsDigit(c: char) {
    '0' <= c <= '9'
  }

  predicate AllDigits(s: string) {
    forall k :: 0 <= k < |s| ==> IsDigit(s[k])
  }

  function DigitChar(d: int): (c: char)
    requires 0 <= d <= 9
    ensures IsDigit(c) && c as int - '0' as int == d
  {
    ('0' as int + d) as char
  }

  /** The decimal numeral of n, without leading zeros. */
  function NatToString(n: nat): string {
    if n < 10 then [DigitChar(n)]
    else NatToString(n / 10) + [DigitChar(n % 10)]
  }

  /** JavaScript's string conversion of an integer-valued number. */
  function IntToString(x: int): string {
    if x < 0 then "-" + NatToString(-x) else NatToString(x)
  }

  /** The value of a non-empty string of decimal digits (leading zeros allowed). */
  function DigitsValue(s: string): nat
    requires |s| >= 1 && AllDigits(s)
  {
    var last := s[|s| - 1] as int - '0' as int;
    if |s| == 1 then last else DigitsValue(s[..|s| - 1]) * 10 + last
  }

  /** Number(s) on the strings a key can hold: the empty string is 0, and an optional
      '-' followed by decimal digits is that integer. None stands for NaN and for the
      numeric forms this model leaves out (white space, '+', fractions, exponents, hex). */
  function Number(s: string): Option<int> {
    if s == "" then Some(0)
    else if s[0] == '-' && |s| >= 2 && AllDigits(s[1..]) then Some(-(DigitsValue(s[1..]) as int))
    else if AllDigits(s) then Some(DigitsValue(s))
    else None
  }

  /** String.prototype.split(',') */
  function Split(s: string): (parts: seq<string>)
    ensures |parts| >= 1
  {
    if s == [] then [""]
    else
      var rest := Split(s[1..]);
      if s[0] == ',' then [""] + rest else [[s[0]] + rest[0]] + rest[1..]
  }

  /** Array.prototype.join(','): the inverse of Split. */
  function Join(parts: seq<string>): string
    requires |parts| >= 1
  {
    if |parts| == 1 then parts[0] else parts[0] + "," + Join(parts[1..])
  }

  /** The key of a point: `${x},${y}`. */
  function Encode(p: Point): string {
    IntToString(p.x) + "," + IntToString(p.y)
  }

  /** const [x, y] = key.split(',').map(Number): the marker position of a key.
      A key without a second part leaves y undefined (the destructuring finds no
      element; Number never sees it), and a part Number cannot read is NaN: both are
      None. */
  function Decode(key: string): Option<Point> {
    var parts := Split(key);
    var x := Number(parts[0]);
    var y := if |parts| >= 2 then Number(parts[1]) else None;
    if x.Some? && y.Some? then Some(Point(x.value, y.value)) else None
  }

  /** A key that decodes to a point whose key it is. */
  predicate Canonical(key: string) {
    Decode(key).Some? && Encode(Decode(key).value) == key
  }

  /** A numeral is a non-empty string of digits. */
  lemma {:induction false} NatToStringDigits(n: nat)
    ensures |NatToString(n)| >= 1 && AllDigits(NatToString(n))
  {
    if n >= 10 {
      NatToStringDigits(n / 10);
    }
  }

  /** A numeral has no comma, so it survives split(','). */
  lemma IntToStringCommaFree(x: int)
    ensures ',' !in IntToString(x)
  {
    NatToStringDigits(if x < 0 then -x else x);
  }

  lemma {:induction false} DigitsValueOfNat(n: nat)
    ensures |NatToString(n)| >= 1 && AllDigits(NatToString(n))
    ensures DigitsValue(NatToString(n)) == n
  {
    NatToStringDigits(n);
    if n >= 10 {
      var s := NatToString(n);
      NatToStringDigits(n / 10);
      assert s[..|s| - 1] == NatToString(n / 10);
      DigitsValueOfNat(n / 10);
    }
  }

  /** Number reads back what IntToString writes, negatives included. */
  lemma NumberOfIntToString(x: int)
    ensures Number(IntToString(x)) == Some(x)
  {
    var s := IntToString(x);
    if x < 0 {
      assert s[1..] == NatToString(-x);
      DigitsValueOfNat(-x);
    } else {
      DigitsValueOfNat(x);
    }
  }

  /** Splitting a comma-free prefix glues it onto the first part. */
  lemma {:induction false} SplitCommaFreePrefix(a: string, t: string)
    requires ',' !in a
    ensures Split(a + t) == [a + Split(t)[0]] + Split(t)[1..]
  {
    if a != [] {
      assert a[0] in a;
      assert (a + t)[0] == a[0] && (a + t)[1..] == a[1..] + t;
      SplitCommaFreePrefix(a[1..], t);
      var rest := Split(a[1..] + t);
      assert Split(a + t) == [[a[0]] + rest[0]] + rest[1..];
      assert rest[0] == a[1..] + Split(t)[0] && rest[1..] == Split(t)[1..];
      assert [a[0]] + (a[1..] + Split(t)[0]) == a + Split(t)[0];
    } else {
      assert a + t == t && a + Split(t)[0] == Split(t)[0];
    }
  }

  /** Join and Split are inverse on parts without commas. */
  lemma {:induction false} SplitJoin(parts: seq<string>)
    requires |parts| >= 1
    requires forall k :: 0 <= k < |parts| ==> ',' !in parts[k]
    ensures Split(Join(parts)) == parts
  {
    if |parts| == 1 {
      SplitCommaFreePrefix(parts[0], "");
      assert parts[0] + "" == parts[0] && Split("") == [""];
    } else {
      SplitJoin(parts[1..]);
      var tail := Join(parts[1..]);
      SplitCommaFreePrefix(parts[0], "," + tail);
      assert ("," + tail)[0] == ',' && ("," + tail)[1..] == tail;
      assert Split("," + tail) == [""] + parts[1..];
      assert Join(parts) == parts[0] + ("," + tail);
      assert parts[0] + "" == parts[0];
      assert parts == [parts[0]] + parts[1..];
    }
  }

  /** Every string is the join of its parts. */
  lemma {:induction false} JoinSplit(s: string)
    ensures Join(Split(s)) == s
  {
    if s != [] {
      JoinSplit(s[1..]);
      var rest := Split(s[1..]);
      if s[0] == ',' {
        assert s == "," + s[1..];
      } else if |rest| == 1 {
        assert s == [s[0]] + s[1..];
      } else {
        assert Join(rest) == rest[0] + "," + Join(rest[1..]);
        assert s == [s[0]] + s[1..];
      }
    }
  }

  /** Decoding a point's key gives the point back, negative coordinates included. */
  lemma DecodeEncode(p: Point)
    ensures Decode(Encode(p)) == Some(p)
  {
    var a, b := IntToString(p.x), IntToString(p.y);
    IntToStringCommaFree(p.x);
    IntToStringCommaFree(p.y);
    assert Join([a, b]) == Encode(p);
    SplitJoin([a, b]);
    NumberOfIntToString(p.x);
    NumberOfIntToString(p.y);
  }

  /** Distinct points have distinct keys, so a set of keys holds one key per point. */
  lemma EncodeInjective(p: Point, q: Point)
    ensures Encode(p) == Encode(q) <==> p == q
  {
    DecodeEncode(p);
    DecodeEncode(q);
  }

  /** Every key made by Encode is canonical. */
  lemma EncodeCanonical(p: Point)
    ensures Canonical(Encode(p))
  {
    DecodeEncode(p);
  }

  /** Decode is not injective on arbitrary strings: Number ignores leading zeros. */
  lemma DecodeIgnoresLeadingZeros()
    ensures Decode("015,0") == Decode("15,0") == Some(Point(15, 0))
    ensures !Canonical("015,0")
  {
    assert Split("015,0") == ["015", "0"] by {
      assert Join(["015", "0"]) == "015,0";
      SplitJoin(["015", "0"]);
    }
    assert Split("15,0") == ["15", "0"] by {
      assert Join(["15", "0"]) == "15,0";
      SplitJoin(["15", "0"]);
    }
    assert "015"[..2] == "01";
    assert "01"[..1] == "0";
    assert "15"[..1] == "1";
    assert Encode(Point(15, 0)) == "15,0";
  }
}
