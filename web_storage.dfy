// The browser's `localStorage`, shared by the streak counter, the milestone
// celebration, the storage clearing and the user id, and the two number
// conversions those callers apply to stored text: `parseInt(s, 10)` and
// `Number.prototype.toString()` on integers.

module WebStorage {
  import opened Opt
  import opened Strings

  /** A string-to-string store, updated in place. */
  class LocalStorage {
    var items: map<string, string>

    constructor (initial: map<string, string>)
      ensures items == initial
    {
      items := initial;
    }

    /** `getItem`: `None` (JavaScript's `null`) for a missing key. */
    method GetItem(key: string) returns (r: Option<string>)
      ensures r.Some? <==> key in items
      ensures r.Some? ==> r.value == items[key]
    {
      if key in items {
        r := Some(items[key]);
      } else {
        r := None;
      }
    }

    method SetItem(key: string, value: string)
      modifies this
      ensures items == old(items)[key := value]
    {
      items := items[key := value];
    }

    method RemoveItem(key: string)
      modifies this
      ensures items == old(items) - {key}
    {
      items := items - {key};
    }
  }

  /** `items.getItem(key) || fallback`: the stored text unless it is missing
      or empty. */
  function StoredOr(items: map<string, string>, key: string, fallback: string): (r: string)
    ensures key in items && items[key] != "" ==> r == items[key]
    ensures !(key in items && items[key] != "") ==> r == fallback
  {
    if key in items && items[key] != "" then items[key] else fallback
  }

  /** The length of the run of decimal digits `s` starts with. */
  function DigitRun(s: string): (n: nat)
    ensures n <= |s|
    ensures forall i :: 0 <= i < n ==> IsDigit(s[i])
    ensures n == |s| || !IsDigit(s[n])
    decreases |s|
  {
    if |s| > 0 && IsDigit(s[0]) then 1 + DigitRun(s[1..]) else 0
  }

  /** `parseInt(s, 10)`: leading white space is skipped, then an optional
      sign, then the longest run of digits is read and the rest ignored;
      `None` (NaN) when that run is empty. */
  function ParseInt(s: string): (r: Option<int>)
    ensures var t := s[LeadingSpace(s)..];
            var u := if |t| > 0 && (t[0] == '-' || t[0] == '+') then t[1..] else t;
            r.Some? <==> |u| > 0 && IsDigit(u[0])
  {
    var t := s[LeadingSpace(s)..];
    var signed := |t| > 0 && (t[0] == '-' || t[0] == '+');
    var u := if signed then t[1..] else t;
    var n := DigitRun(u);
    if n == 0 then None
    else
      var magnitude: int := ParseDigits(u[..n]);
      Some(if signed && t[0] == '-' then -magnitude else magnitude)
  }

  /** `n.toString()` for an integer `n`. */
  function IntToString(n: int): (r: string)
    ensures |r| >= 1
    ensures n >= 0 ==> r == NatToString(n)
    ensures n < 0 ==> r == "-" + NatToString(-n)
  {
    if n < 0 then "-" + NatToString(-n) else NatToString(n)
  }

  /** Reading back the text an integer is stored as gives the integer. */
  lemma ParseIntToString(n: int)
    ensures ParseInt(IntToString(n)) == Some(n)
  {
    var s := IntToString(n);
    var m: nat := if n < 0 then -n else n;
    var digits := NatToString(m);
    assert LeadingSpace(s) == 0 by {
      assert s[0] == '-' || IsDigit(s[0]);
    }
    var t := s[LeadingSpace(s)..];
    assert t == s;
    var u := if |t| > 0 && (t[0] == '-' || t[0] == '+') then t[1..] else t;
    assert u == digits by {
      if n < 0 {
        assert t[1..] == digits;
      } else {
        assert IsDigit(t[0]);
      }
    }
    assert DigitRun(u) == |u|;
    assert u[..|u|] == u;
    ParseNatToString(m);
  }

  /** Distinct integers are stored as distinct texts. */
  lemma IntToStringInjective(m: int, n: int)
    requires m != n
    ensures IntToString(m) != IntToString(n)
  {
    ParseIntToString(m);
    ParseIntToString(n);
  }
}
