/** The PHP values the modelled code stores, binds and returns. */
module PhpValues {
  import opened Results
  import opened Text

  /**
   * A PHP value. Floats and objects are not modelled; an array is an ordered
   * list of key/value pairs whose keys are written as strings.
   */
  datatype Value =
    | Null
    | Bool(b: bool)
    | Int(i: int)
    | Str(s: string)
    | Arr(entries: seq<(string, Value)>)

  /** A key of a PHP array as PHP holds it: an integer or a string. */
  datatype Key = IntKey(n: int) | StrKey(s: string)

  /** An ordered PHP array, in iteration order. */
  type PhpArray = seq<(string, Value)>

  /** No key occurs twice: what every PHP array guarantees. */
  ghost predicate DistinctKeys(a: PhpArray) {
    forall i, j :: 0 <= i < j < |a| ==> a[i].0 != a[j].0
  }

  function Keys(a: PhpArray): set<string> {
    set i | 0 <= i < |a| :: a[i].0
  }

  /** The PHP array as a dictionary (a later pair wins over an earlier one with the same key). */
  function ToMap(a: PhpArray): (m: map<string, Value>)
    ensures m.Keys == Keys(a)
  {
    if a == [] then map[]
    else
      var m0 := ToMap(a[..|a| - 1]);
      assert Keys(a) == Keys(a[..|a| - 1]) + {a[|a| - 1].0} by {
        forall k | k in Keys(a) ensures k in Keys(a[..|a| - 1]) + {a[|a| - 1].0} {
          var i :| 0 <= i < |a| && a[i].0 == k;
          if i < |a| - 1 { assert a[..|a| - 1][i] == a[i]; }
        }
      }
      m0[a[|a| - 1].0 := a[|a| - 1].1]
  }

  /** With distinct keys every pair of the array can be looked up in its dictionary. */
  lemma {:induction false} ToMapLookup(a: PhpArray, j: int)
    requires DistinctKeys(a) && 0 <= j < |a|
    ensures a[j].0 in ToMap(a) && ToMap(a)[a[j].0] == a[j].1
  {
    if j < |a| - 1 {
      var p := a[..|a| - 1];
      assert p[j] == a[j];
      assert DistinctKeys(p) by {
        forall x, y | 0 <= x < y < |p| ensures p[x].0 != p[y].0 { assert p[x] == a[x] && p[y] == a[y]; }
      }
      ToMapLookup(p, j);
    }
  }

  /** PHP's `empty()` on a string: the empty string and "0" are empty. */
  predicate EmptyString(s: string) {
    s == "" || s == "0"
  }

  /** PHP's `empty()` on a nullable int: null and 0 are empty. */
  predicate EmptyInt(n: Option<int>) {
    n == None || n == Some(0)
  }

  const MaxInt: int := 0x7fff_ffff_ffff_ffff

  /**
   * A string that PHP turns into an integer when it is used as an array key:
   * a decimal integer in canonical form ("0", "17", "-3"; not "007", "-0",
   * "+1" or " 1") that fits in 64 bits.
   */
  predicate IntegerKey(s: string) {
    || s == "0"
    || (|s| > 0 && '1' <= s[0] <= '9' && (forall i :: 0 <= i < |s| ==> '0' <= s[i] <= '9') && DigitsValue(s) <= MaxInt)
    || (|s| > 1 && s[0] == '-' && '1' <= s[1] <= '9' && (forall i :: 1 <= i < |s| ==> '0' <= s[i] <= '9') &&
        DigitsValue(s[1..]) <= MaxInt + 1)
  }

  /** The digits of a positive number start with a non-zero digit and read back as that number. */
  lemma PositiveDigits(n: nat)
    requires n > 0
    ensures var s := NatToString(n);
      |s| > 0 && '1' <= s[0] <= '9' && (forall i :: 0 <= i < |s| ==> '0' <= s[i] <= '9') && DigitsValue(s) == n
  {
    NatToStringLead(n);
    NatToStringRoundTrip(n);
  }

  /** Every 64-bit integer, written out as PHP writes it, is such a key. */
  lemma IntToStringIsIntegerKey(n: int)
    requires -MaxInt - 1 <= n <= MaxInt
    ensures IntegerKey(IntToString(n))
  {
    if n == 0 {
      NatToStringLead(0);
    } else if n > 0 {
      PositiveDigits(n);
    } else {
      var digits := NatToString(-n);
      PositiveDigits(-n);
      var s := "-" + digits;
      assert s[1..] == digits;
      assert IntegerKey(s);
    }
  }

  /** Keys with a leading zero, a negative zero or any non-digit stay strings. */
  lemma StringKeys()
    ensures IntegerKey("0") && IntegerKey("42") && IntegerKey("-7")
    ensures !IntegerKey("007") && !IntegerKey("-0") && !IntegerKey("") && !IntegerKey("APP_1")
  {
    assert DigitsValue("42") == DigitsValue("4") * 10 + 2;
    assert "-7"[1..] == "7";
    assert "APP_1"[0] == 'A';
  }
}
