/** Shared vocabulary of the route modules: optional values, HTTP errors,
    document values as the handlers see them, and the few string helpers
    (prefix stripping, decimal text, ObjectId text) that several handlers use. */
module Common {

  datatype Option<T> = None | Some(value: T) {
    /** Python's `d.get(key, default)` once the lookup is done. */
    function GetOr(default: T): T {
      if Some? then value else default
    }
  }

  /** An `HTTPException`: status code and detail text. */
  datatype HttpError = HttpError(status: int, detail: string)

  datatype Result<T> = Ok(value: T) | Err(error: HttpError)

  /** What FastAPI answers when a handler raises anything but an `HTTPException`
      (a `KeyError`, a `TypeError`, an `IndexError`, bson's `InvalidId`). */
  const InternalError := HttpError(500, "Internal Server Error")

  /** A BSON/JSON document value. A dict keeps its entries in insertion order,
      as a Python dict does. Tuples and sets are distinct from lists because
      the serializer leaves them alone. */
  datatype Value =
    | Null
    | Bool(b: bool)
    | Num(n: int)
    | Str(s: string)
    | Oid(hex: string)
    | List(items: seq<Value>)
    | Dict(entries: seq<(string, Value)>)
    | Tuple(elems: seq<Value>)
    | PySet(elems: seq<Value>)

  /** Python truthiness: `None`, `False`, `0` and empty containers are false;
      an ObjectId is always true. */
  predicate Truthy(v: Value) {
    match v
    case Null => false
    case Bool(b) => b
    case Num(n) => n != 0
    case Str(s) => s != ""
    case Oid(_) => true
    case List(items) => items != []
    case Dict(entries) => entries != []
    case Tuple(elems) => elems != []
    case PySet(elems) => elems != []
  }

  /** `d.get(key)`: the value stored under `key`, or `None` when absent. */
  function DictGet(entries: seq<(string, Value)>, key: string): (r: Option<Value>)
    ensures r.None? <==> forall i :: 0 <= i < |entries| ==> entries[i].0 != key
    ensures r.Some? ==> exists i :: 0 <= i < |entries| && entries[i] == (key, r.value)
  {
    if entries == [] then None
    else if entries[0].0 == key then Some(entries[0].1)
    else
      var r := DictGet(entries[1..], key);
      assert forall i :: 1 <= i < |entries| ==> entries[i] == entries[1..][i - 1];
      r
  }

  // ---------------------------------------------------------------------------
  // Prefix stripping: `key[len(prefix):] if key.startswith(prefix) else key`

  function StripPrefix(s: string, prefix: string): (r: string)
    ensures prefix <= s ==> prefix + r == s
    ensures !(prefix <= s) ==> r == s
  {
    if prefix <= s then s[|prefix|..] else s
  }

  /** The object key inside the MinIO bucket: the stored path loses a leading
      `"<bucket>/"`, once. */
  function CleanObjectKey(bucket: string, key: string): (r: string)
    ensures bucket + "/" <= key ==> bucket + "/" + r == key
    ensures !(bucket + "/" <= key) ==> r == key
  {
    StripPrefix(key, bucket + "/")
  }

  /** The prefix goes exactly once: a key that repeats the prefix keeps the
      second copy. */
  lemma {:induction false} CleanObjectKeyOnce(bucket: string, key: string)
    ensures CleanObjectKey(bucket, bucket + "/" + key) == key
    ensures CleanObjectKey(bucket, bucket + "/" + bucket + "/" + key) == bucket + "/" + key
  {
    var p := bucket + "/";
    assert p <= p + key;
    assert (p + key)[|p|..] == key;
    assert p + (p + key) == p + p + key;
    assert p <= p + (p + key);
    assert (p + (p + key))[|p|..] == p + key;
  }

  // ---------------------------------------------------------------------------
  // Filtering characters, as `re.sub("[^...]+", "", s)` and `s.replace(c, "")` do.

  /** The characters of `s` that satisfy `p`, in order. */
  function Keep(s: string, p: char -> bool): (r: string)
    ensures |r| <= |s|
    ensures forall i :: 0 <= i < |r| ==> p(r[i])
    ensures forall c :: c in r <==> c in s && p(c)
  {
    if s == [] then []
    else (if p(s[0]) then [s[0]] else []) + Keep(s[1..], p)
  }

  /** Filtering a text whose characters all pass changes nothing; in particular
      filtering twice is filtering once. */
  lemma {:induction false} KeepUnchanged(s: string, p: char -> bool)
    requires forall i :: 0 <= i < |s| ==> p(s[i])
    ensures Keep(s, p) == s
  {
    if s != [] {
      var rest := s[1..];
      forall i | 0 <= i < |rest| ensures p(rest[i]) {
        assert rest[i] == s[i + 1];
      }
      KeepUnchanged(rest, p);
      assert p(s[0]);
      assert Keep(s, p) == [s[0]] + Keep(rest, p);
      assert s == [s[0]] + rest;
    }
  }

  /** Filtering works piece by piece. */
  lemma {:induction false} KeepConcat(a: string, b: string, p: char -> bool)
    ensures Keep(a + b, p) == Keep(a, p) + Keep(b, p)
  {
    if a != [] {
      assert (a + b)[1..] == a[1..] + b;
      KeepConcat(a[1..], b, p);
    } else {
      assert a + b == b;
    }
  }

  lemma KeepIdempotent(s: string, p: char -> bool)
    ensures Keep(Keep(s, p), p) == Keep(s, p)
  {
    KeepUnchanged(Keep(s, p), p);
  }

  // ---------------------------------------------------------------------------
  // Decimal text: `str(n)` / `f"{n}"` and `int(s)`.

  predicate IsDigit(c: char) {
    '0' <= c <= '9'
  }

  predicate AllDigits(s: string) {
    forall i :: 0 <= i < |s| ==> IsDigit(s[i])
  }

  function DigitChar(d: nat): (c: char)
    requires d < 10
    ensures IsDigit(c) && c as int - '0' as int == d
  {
    ('0' as int + d) as char
  }

  /** `str(n)` for a natural number: no leading zeros, at least one digit. */
  function NatToString(n: nat): (r: string)
    ensures |r| >= 1 && AllDigits(r)
    ensures n > 0 ==> r[0] != '0'
  {
    if n < 10 then [DigitChar(n)] else NatToString(n / 10) + [DigitChar(n % 10)]
  }

  /** `str(n)` for any integer. */
  function IntToString(n: int): (r: string)
    ensures |r| >= 1
    ensures n >= 0 ==> AllDigits(r)
    ensures n < 0 ==> |r| >= 2 && r[0] == '-' && AllDigits(r[1..])
    ensures '.' !in r && '_' !in r
  {
    if n < 0 then "-" + NatToString(-n) else NatToString(n)
  }

  /** The number a text of decimal digits denotes. */
  function DigitsValue(s: string): nat
    requires AllDigits(s)
  {
    if s == [] then 0
    else DigitsValue(s[..|s| - 1]) * 10 + (s[|s| - 1] as int - '0' as int)
  }

  /** Python's default `sys.int_max_str_digits`: `int(s)` and `str(n)` in
      base 10 raise `ValueError` beyond this many digits. */
  const MaxStrDigits := 4300

  /** `str(n)` succeeds: the magnitude has at most `MaxStrDigits` digits. */
  predicate StrFits(n: int) {
    |NatToString(if n < 0 then -n else n)| <= MaxStrDigits
  }

  /** Python's `int(s)` on a text of ASCII digits with an optional sign;
      `None` stands for the `ValueError` it raises otherwise, including for
      more than `MaxStrDigits` digits. */
  function ParseInt(s: string): (r: Option<int>)
    ensures r.Some? <==>
              || (0 < |s| <= MaxStrDigits && AllDigits(s))
              || (1 < |s| <= MaxStrDigits + 1 && (s[0] == '-' || s[0] == '+') && AllDigits(s[1..]))
    ensures r.Some? && |s| > 0 && s[0] == '-' ==> r.value <= 0
    ensures r.Some? && |s| > 0 && s[0] != '-' ==> r.value >= 0
  {
    if 0 < |s| <= MaxStrDigits && AllDigits(s) then Some(DigitsValue(s))
    else if 1 < |s| <= MaxStrDigits + 1 && s[0] == '-' && AllDigits(s[1..]) then Some(0 - DigitsValue(s[1..]) as int)
    else if 1 < |s| <= MaxStrDigits + 1 && s[0] == '+' && AllDigits(s[1..]) then Some(DigitsValue(s[1..]))
    else None
  }

  lemma {:induction false} NatToStringRoundTrip(n: nat)
    ensures DigitsValue(NatToString(n)) == n
  {
    if n >= 10 {
      var s := NatToString(n);
      assert s[..|s| - 1] == NatToString(n / 10);
      NatToStringRoundTrip(n / 10);
    }
  }

  /** `int(str(n)) == n` whenever `str(n)` succeeds. */
  lemma IntToStringRoundTrip(n: int)
    requires StrFits(n)
    ensures ParseInt(IntToString(n)) == Some(n)
  {
    var s := IntToString(n);
    if n < 0 {
      var digits := NatToString(-n);
      assert s == "-" + digits;
      assert s[1..] == digits;
      assert !IsDigit(s[0]);
      NatToStringRoundTrip(-n);
      assert DigitsValue(s[1..]) == -n;
    } else {
      assert s == NatToString(n);
      NatToStringRoundTrip(n);
    }
  }

  // ---------------------------------------------------------------------------
  // ObjectId text: bson's `ObjectId(s)` accepts 24 hexadecimal characters.

  predicate IsHexDigit(c: char) {
    '0' <= c <= '9' || 'a' <= c <= 'f' || 'A' <= c <= 'F'
  }

  predicate IsLowerHexDigit(c: char) {
    '0' <= c <= '9' || 'a' <= c <= 'f'
  }

  function LowerHexDigit(c: char): (r: char)
    requires IsHexDigit(c)
    ensures IsLowerHexDigit(r)
  {
    if 'A' <= c <= 'F' then (c as int - 'A' as int + 'a' as int) as char else c
  }

  /** `str(ObjectId(s))`, or `None` for the `InvalidId` the constructor raises. */
  function ParseObjectId(s: string): (r: Option<string>)
    ensures r.Some? <==> |s| == 24 && forall i :: 0 <= i < |s| ==> IsHexDigit(s[i])
    ensures r.Some? ==> |r.value| == 24
    ensures r.Some? ==> forall i :: 0 <= i < 24 ==> IsLowerHexDigit(r.value[i])
  {
    if |s| == 24 && forall i :: 0 <= i < |s| ==> IsHexDigit(s[i])
    then Some(seq(24, i requires 0 <= i < 24 => LowerHexDigit(s[i])))
    else None
  }

  /** An id already in canonical (lower-case) form is its own ObjectId text. */
  lemma ParseObjectIdCanonical(s: string)
    requires |s| == 24 && forall i :: 0 <= i < |s| ==> IsLowerHexDigit(s[i])
    ensures ParseObjectId(s) == Some(s)
  {
    var r := ParseObjectId(s).value;
    forall i | 0 <= i < 24 ensures r[i] == s[i] {
      assert IsHexDigit(s[i]) && LowerHexDigit(s[i]) == s[i];
    }
    assert r == s;
  }
}
