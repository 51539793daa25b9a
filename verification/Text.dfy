/** The text forms that travel in Redis keys and stream fields. */
module Text {
  import opened Common

  predicate IsHex(c: char) {
    '0' <= c <= '9' || 'a' <= c <= 'f'
  }

  /** The canonical text of a UUID (RFC 9562, section 4). */
  predicate IsUuid(s: string) {
    |s| == 36 && forall i :: 0 <= i < 36 ==> if i in {8, 13, 18, 23} then s[i] == '-' else IsHex(s[i])
  }

  /** A UUID, represented by its canonical text. */
  type Uuid = s: string | IsUuid(s) witness "00000000-0000-0000-0000-000000000000"

  function Lower(c: char): char {
    if 'A' <= c <= 'F' then (c as int + 32) as char else c
  }

  predicate ReadsAsUuid(s: string) {
    |s| == 36 && forall i :: 0 <= i < 36 ==> if i in {8, 13, 18, 23} then s[i] == '-' else IsHex(Lower(s[i]))
  }

  /** uuid.Parse on the 36-character form; upper-case digits are accepted. */
  function ParseUuid(s: string): (r: Option<Uuid>)
    ensures IsUuid(s) ==> r == Some(s)
    ensures r.Some? <==> ReadsAsUuid(s)
    ensures r.Some? ==> forall i :: 0 <= i < 36 ==> r.value[i] == Lower(s[i])
  {
    var t := seq(|s|, i requires 0 <= i < |s| => Lower(s[i]));
    assert forall i :: 0 <= i < |s| ==> t[i] == Lower(s[i]);
    assert IsUuid(t) ==> ReadsAsUuid(s) by {
      if IsUuid(t) {
        forall i | 0 <= i < 36
          ensures if i in {8, 13, 18, 23} then s[i] == '-' else IsHex(Lower(s[i]))
        {
          assert t[i] == Lower(s[i]);
        }
      }
    }
    assert IsUuid(s) ==> t == s;
    if IsUuid(t) then Some(t) else None
  }

  function Digit(d: nat): char
    requires d < 10
  {
    ('0' as int + d) as char
  }

  function FormatNat(n: nat): (s: string)
    ensures |s| > 0 && forall i :: 0 <= i < |s| ==> '0' <= s[i] <= '9'
  {
    if n < 10 then [Digit(n)] else FormatNat(n / 10) + [Digit(n % 10)]
  }

  /** strconv.FormatInt, base 10. */
  function FormatInt(n: int): string {
    if n < 0 then "-" + FormatNat(-n) else FormatNat(n)
  }

  function ParseNat(s: string): Option<nat> {
    if s == [] then None
    else
      var c := s[|s| - 1];
      if !('0' <= c <= '9') then None
      else
        var d := c as int - '0' as int;
        if |s| == 1 then Some(d)
        else
          var high := ParseNat(s[..|s| - 1]);
          if high.None? then None else Some(10 * high.value + d)
  }

  const INT64_MAX := 0x7fff_ffff_ffff_ffff

  predicate IsInt64(n: int) {
    -INT64_MAX - 1 <= n <= INT64_MAX
  }

  /** strconv.ParseInt, base 10, 64 bits. */
  function ParseInt(s: string): (r: Option<int>)
    ensures r.Some? ==> |s| > 0 && IsInt64(r.value)
  {
    var signed := |s| > 0 && (s[0] == '-' || s[0] == '+');
    var n := ParseNat(if signed then s[1..] else s);
    if n.None? then None
    else
      var v: int := if signed && s[0] == '-' then 0 - n.value else n.value;
      if IsInt64(v) then Some(v) else None
  }

  lemma {:induction false} NatRoundTrip(n: nat)
    ensures ParseNat(FormatNat(n)) == Some(n)
  {
    if n >= 10 {
      NatRoundTrip(n / 10);
      var s := FormatNat(n);
      assert s[..|s| - 1] == FormatNat(n / 10);
    }
  }

  /** Every 64-bit integer survives the stream as decimal text. */
  lemma IntRoundTrip(n: int)
    requires IsInt64(n)
    ensures ParseInt(FormatInt(n)) == Some(n)
  {
    var digits := FormatNat(if n < 0 then -n else n);
    assert ParseNat(digits) == Some(if n < 0 then -n else n) by { NatRoundTrip(if n < 0 then -n else n); }
    var s := FormatInt(n);
    if n < 0 {
      assert s == "-" + digits && s[0] == '-' && s[1..] == digits;
    } else {
      assert s == digits && '0' <= s[0] <= '9';
    }
  }
}
