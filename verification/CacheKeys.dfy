/** The reply cache's key: printing "client:request" and reading it back. */
module CacheKeys {
  import opened Messages

  function DigitChar(d: nat): char
    requires d < 10
  {
    ('0' as int + d) as char
  }

  predicate IsDigit(c: char) {
    '0' <= c <= '9'
  }

  /** Decimal digits of n, as %d prints them: no leading zeros. */
  function Digits(n: nat): string {
    if n < 10 then [DigitChar(n)] else Digits(n / 10) + [DigitChar(n % 10)]
  }

  function FormatInt(x: int): string {
    if x < 0 then "-" + Digits(-x) else Digits(x)
  }

  function CacheKey(clientId: string, requestId: int64): string {
    clientId + ":" + FormatInt(requestId)
  }

  /** strings.LastIndex for a one-character needle: -1 when it does not occur. */
  function LastIndex(s: string, c: char): (i: int)
    ensures -1 <= i < |s|
    ensures i >= 0 ==> s[i] == c
    ensures forall j :: i < j < |s| ==> s[j] != c
  {
    if s == [] then -1
    else if s[|s| - 1] == c then |s| - 1
    else LastIndex(s[..|s| - 1], c)
  }

  predicate AllDigits(s: string) {
    forall i :: 0 <= i < |s| ==> IsDigit(s[i])
  }

  function DigitsValue(s: string): nat
    requires AllDigits(s)
  {
    if s == [] then 0
    else 10 * DigitsValue(s[..|s| - 1]) + (s[|s| - 1] as int - '0' as int)
  }

  /** strconv.ParseInt(s, 10, 64): optional sign, at least one digit, range checked. */
  function ParseInt(s: string): Option<int64> {
    var signed := s != "" && (s[0] == '-' || s[0] == '+');
    var digits := if signed then s[1..] else s;
    if digits == "" || !AllDigits(digits) then None
    else
      var n: int := DigitsValue(digits);
      var x: int := if signed && s[0] == '-' then -n else n;
      if MIN_INT64 <= x <= MAX_INT64 then Some(x) else None
  }

  datatype Key = Key(clientId: string, requestId: int64)

  /** Split at the last colon and parse the rest; None is the case TransferState skips. */
  function ParseKey(key: string): Option<Key> {
    var i := LastIndex(key, ':');
    if i < 0 then None
    else
      match ParseInt(key[i + 1..])
      case None => None
      case Some(id) => Some(Key(key[..i], id))
  }

  /** The keys the handlers store: printed from a non-empty client and a request ID. */
  predicate Canonical(key: string) {
    var k := ParseKey(key);
    k.Some? && k.value.clientId != "" && CacheKey(k.value.clientId, k.value.requestId) == key
  }

  lemma {:induction false} DigitsRoundTrip(n: nat)
    ensures Digits(n) != []
    ensures AllDigits(Digits(n))
    ensures DigitsValue(Digits(n)) == n
  {
    if n >= 10 {
      DigitsRoundTrip(n / 10);
      var s := Digits(n);
      assert s[..|s| - 1] == Digits(n / 10);
    }
  }

  lemma FormatIntRoundTrip(x: int64)
    ensures ParseInt(FormatInt(x)) == Some(x)
    ensures ':' !in FormatInt(x)
  {
    var y: int := x;
    var n: nat := if y < 0 then -y else y;
    DigitsRoundTrip(n);
    var d := Digits(n);
    if x < 0 {
      assert FormatInt(x)[1..] == d;
    } else {
      assert IsDigit(d[0]);
    }
  }

  /** Every client string, colons included, and every int64, negatives included. */
  lemma KeyRoundTrip(clientId: string, requestId: int64)
    ensures ParseKey(CacheKey(clientId, requestId)) == Some(Key(clientId, requestId))
  {
    FormatIntRoundTrip(requestId);
    var f := FormatInt(requestId);
    var key := CacheKey(clientId, requestId);
    assert key[|clientId|] == ':';
    forall j | |clientId| < j < |key| ensures key[j] != ':' {
      assert key[j] == f[j - |clientId| - 1];
    }
    assert LastIndex(key, ':') == |clientId|;
    assert key[|clientId| + 1..] == f;
    assert key[..|clientId|] == clientId;
  }

  lemma KeysNeverCollide(c1: string, r1: int64, c2: string, r2: int64)
    ensures CacheKey(c1, r1) == CacheKey(c2, r2) <==> c1 == c2 && r1 == r2
  {
    KeyRoundTrip(c1, r1);
    KeyRoundTrip(c2, r2);
  }

  lemma StoredKeysAreCanonical(clientId: string, requestId: int64)
    requires clientId != ""
    ensures Canonical(CacheKey(clientId, requestId))
  {
    KeyRoundTrip(clientId, requestId);
  }

  // ---- which keys survive a transfer ------------------------------------------------------

  predicate NoLeadingZero(digits: string) {
    |digits| == 1 || (digits != "" && digits[0] != '0')
  }

  lemma {:induction false} DigitsHaveNoLeadingZero(n: nat)
    ensures NoLeadingZero(Digits(n)) && (n > 0 ==> Digits(n)[0] != '0')
  {
    if n >= 10 {
      DigitsHaveNoLeadingZero(n / 10);
    }
  }

  lemma {:induction false} PositiveValue(s: string)
    requires s != "" && AllDigits(s) && s[0] != '0'
    ensures DigitsValue(s) > 0
  {
    if |s| > 1 {
      PositiveValue(s[..|s| - 1]);
    }
  }

  /** Printing what was read gives the same digits iff they have no leading zero. */
  lemma {:induction false} DigitsReprintIff(s: string)
    requires s != "" && AllDigits(s)
    ensures Digits(DigitsValue(s)) == s <==> NoLeadingZero(s)
  {
    DigitsHaveNoLeadingZero(DigitsValue(s));
    if |s| > 1 && s[0] != '0' {
      var front := s[..|s| - 1];
      DigitsReprintIff(front);
      PositiveValue(front);
      var v, d := DigitsValue(front), s[|s| - 1] as int - '0' as int;
      assert DigitsValue(s) == 10 * v + d && (10 * v + d) / 10 == v && (10 * v + d) % 10 == d;
      assert s == front + [s[|s| - 1]];
    }
  }

  /** A number as the cache prints it: no plus sign, no leading zero, no negative zero. */
  predicate Plain(s: string) {
    var digits := if s != "" && s[0] == '-' then s[1..] else s;
    NoLeadingZero(digits) && digits[0] != '+' && s != "-0"
  }

  lemma NegativeIsPlainIff(digits: string)
    requires digits != "" && AllDigits(digits)
    ensures FormatInt(0 - DigitsValue(digits)) == "-" + digits <==> NoLeadingZero(digits) && digits != "0"
  {
    var v: int := DigitsValue(digits);
    DigitsReprintIff(digits);
    DigitsRoundTrip(v);
    if NoLeadingZero(digits) {
      ZeroIsOneDigit(digits);
    }
    if v > 0 {
      assert ("-" + Digits(v))[1..] == Digits(v) && ("-" + digits)[1..] == digits;
    } else {
      assert IsDigit(FormatInt(-v)[0]);
    }
  }

  lemma FormatIntIsPlainIff(s: string)
    requires ParseInt(s).Some?
    ensures FormatInt(ParseInt(s).value) == s <==> Plain(s)
  {
    if s[0] == '-' {
      assert s == "-" + s[1..];
      NegativeIsPlainIff(s[1..]);
    } else if s[0] == '+' {
      DigitsRoundTrip(DigitsValue(s[1..]));
      assert IsDigit(FormatInt(ParseInt(s).value)[0]);
    } else {
      DigitsReprintIff(s);
    }
  }

  lemma ZeroIsOneDigit(s: string)
    requires s != "" && AllDigits(s) && NoLeadingZero(s)
    ensures DigitsValue(s) == 0 <==> s == "0"
  {
    if s[0] != '0' {
      PositiveValue(s);
    }
  }

  // ---- which numbers are read -------------------------------------------------------------

  function Zeros(k: nat): string {
    if k == 0 then "" else "0" + Zeros(k - 1)
  }

  lemma {:induction false} ZerosAreZero(k: nat, digits: string)
    requires AllDigits(digits)
    ensures AllDigits(Zeros(k) + digits) && DigitsValue(Zeros(k) + digits) == DigitsValue(digits)
    decreases k, |digits|
  {
    var s := Zeros(k) + digits;
    if digits == "" {
      if k > 0 {
        assert Zeros(k) == Zeros(k - 1) + "0" by { ZerosEnd(k); }
        ZerosAreZero(k - 1, "");
        assert Zeros(k - 1) + "" == Zeros(k - 1) && s == Zeros(k - 1) + "0";
        assert s[..|s| - 1] == Zeros(k - 1);
      }
    } else {
      ZerosAreZero(k, digits[..|digits| - 1]);
      assert s[..|s| - 1] == Zeros(k) + digits[..|digits| - 1];
    }
  }

  lemma {:induction false} ZerosEnd(k: nat)
    requires k > 0
    ensures Zeros(k) == Zeros(k - 1) + "0"
  {
    if k > 1 {
      ZerosEnd(k - 1);
    }
  }

  /** A string of digits is what is printed for its value, with zeros in front. */
  lemma {:induction false} DigitsArePadded(s: string) returns (k: nat)
    requires s != "" && AllDigits(s)
    ensures s == Zeros(k) + Digits(DigitsValue(s))
  {
    if NoLeadingZero(s) {
      DigitsReprintIff(s);
      k := 0;
    } else {
      k := DigitsArePadded(s[1..]);
      assert s == "0" + s[1..];
      ZerosAreZero(1, s[1..]);
      assert Zeros(1) == "0";
      k := k + 1;
    }
  }

  function Padded(n: nat, zeros: nat): (digits: string)
    ensures digits != "" && AllDigits(digits) && DigitsValue(digits) == n
  {
    DigitsRoundTrip(n);
    ZerosAreZero(zeros, Digits(n));
    Zeros(zeros) + Digits(n)
  }

  /** s is the number x: a sign that fits or none, zeros, and the digits of the magnitude. */
  predicate Spells(s: string, x: int64, zeros: nat) {
    if x < 0 then s == "-" + Padded(0 - x, zeros)
    else s == Padded(x, zeros) || s == "+" + Padded(x, zeros) || (x == 0 && s == "-" + Padded(0, zeros))
  }

  lemma ReadsUnsigned(digits: string)
    requires digits != "" && AllDigits(digits) && DigitsValue(digits) <= MAX_INT64
    ensures ParseInt(digits) == Some(DigitsValue(digits)) && ParseInt("+" + digits) == Some(DigitsValue(digits))
  {
    assert IsDigit(digits[0]) && ("+" + digits)[1..] == digits;
  }

  lemma ReadsNegative(digits: string)
    requires digits != "" && AllDigits(digits) && DigitsValue(digits) <= 0 - MIN_INT64
    ensures ParseInt("-" + digits) == Some(0 - DigitsValue(digits))
  {
    assert ("-" + digits)[1..] == digits;
  }

  lemma SpelledIsRead(s: string, x: int64, zeros: nat)
    requires Spells(s, x, zeros)
    ensures ParseInt(s) == Some(x)
  {
    if x <= 0 {
      ReadsNegative(Padded(0 - x, zeros));
    }
    if x >= 0 {
      ReadsUnsigned(Padded(x, zeros));
    }
  }

  lemma ReadIsSpelled(s: string, x: int64) returns (zeros: nat)
    requires ParseInt(s) == Some(x)
    ensures Spells(s, x, zeros)
  {
    if s[0] == '-' || s[0] == '+' {
      zeros := DigitsArePadded(s[1..]);
      assert s == [s[0]] + s[1..];
    } else {
      zeros := DigitsArePadded(s);
    }
  }

  /** Exactly these strings are read as the int64 x: an optional sign that fits, any number of zeros, and
      its digits. */
  lemma ParseIntIff(s: string, x: int64)
    ensures ParseInt(s) == Some(x) <==> exists zeros :: Spells(s, x, zeros)
  {
    if ParseInt(s) == Some(x) {
      var zeros := ReadIsSpelled(s, x);
    }
    if zeros :| Spells(s, x, zeros) {
      SpelledIsRead(s, x, zeros);
    }
  }

  /** A key survives being split, sent and printed again iff what follows its last colon is a plain
      number and what precedes it is not empty. */
  lemma CanonicalIff(key: string)
    ensures Canonical(key) <==>
              var i := LastIndex(key, ':');
              i > 0 && ParseInt(key[i + 1..]).Some? && Plain(key[i + 1..])
  {
    var i := LastIndex(key, ':');
    if i >= 0 {
      var number := ParseInt(key[i + 1..]);
      if number.Some? {
        FormatIntIsPlainIff(key[i + 1..]);
        SameTail(key, i, FormatInt(number.value));
      }
    }
  }

  lemma SameTail(key: string, i: nat, tail: string)
    requires i < |key| && key[i] == ':'
    ensures key[..i] + ":" + tail == key <==> tail == key[i + 1..]
  {
    assert key == key[..i] + ":" + key[i + 1..];
    assert (key[..i] + ":" + tail)[i + 1..] == tail;
  }
}
