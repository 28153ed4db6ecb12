/**
  The pieces of the nginx core that the subrequest code leans on: its return
  and status codes, its method codes, byte strings and case folding, the
  header-list element, and the decimal rendering of `%O`.

  A byte string is a `seq<char>` whose characters stand for single bytes.
  Case folding is nginx's: only the ASCII letters 'A'..'Z' change.
*/
module Ngx {

  datatype Option<+T> = None | Some(value: T)

  // Return codes of the nginx core.
  const NgxOk: int := 0
  const NgxError: int := -1

  // HTTP status codes used by the subrequest code.
  const HttpOk: int := 200
  const HttpNoContent: int := 204
  const HttpPartialContent: int := 206
  const HttpSpecialResponse: int := 300
  const HttpNotModified: int := 304
  const HttpInternalServerError: int := 500

  // Request method codes (bit flags in nginx).
  const HttpGet: nat := 0x0002
  const HttpHead: nat := 0x0004
  const HttpPost: nat := 0x0008
  const HttpPut: nat := 0x0010
  const HttpDelete: nat := 0x0020
  const HttpOptions: nat := 0x0200

  /** A (key, value) pair as collected from an options table. */
  datatype KeyVal = KeyVal(key: seq<char>, value: seq<char>)

  /**
    One element of an nginx header list. `hash` is kept only as a marker:
    0 means "already consumed", anything else means "live".
  */
  datatype TableElt = TableElt(hash: nat, key: seq<char>, value: seq<char>, lowcaseKey: seq<char>)

  /** The marker that header elements built by the subrequest code carry. */
  const LiveHash: nat := 1

  function LowerChar(c: char): char {
    if 'A' <= c <= 'Z' then (c as int + 32) as char else c
  }

  /** nginx's `ngx_strlow`: lower-case every ASCII letter, keep every other byte. */
  function Lower(s: seq<char>): (r: seq<char>)
    ensures |r| == |s|
    ensures forall i :: 0 <= i < |s| && 'A' <= s[i] <= 'Z' ==> r[i] as int == s[i] as int + 32
    ensures forall i :: 0 <= i < |s| && !('A' <= s[i] <= 'Z') ==> r[i] == s[i]
    ensures forall i :: 0 <= i < |r| ==> !('A' <= r[i] <= 'Z')
  {
    seq(|s|, i requires 0 <= i < |s| => LowerChar(s[i]))
  }

  /** Lower-casing twice is lower-casing once. */
  lemma LowerIdempotent(s: seq<char>)
    ensures Lower(Lower(s)) == Lower(s)
  {
  }

  /** Two names are the same header or variable name, ignoring ASCII case. */
  predicate SameNameIgnoringCase(a: seq<char>, b: seq<char>) {
    |a| == |b| && Lower(a) == Lower(b)
  }

  function DigitChar(d: nat): char
    requires d < 10
  {
    ('0' as int + d) as char
  }

  predicate AllDigits(s: seq<char>) {
    forall i :: 0 <= i < |s| ==> '0' <= s[i] <= '9'
  }

  /** `ngx_sprintf("%O", n)` for a non-negative offset: decimal, no leading zeros. */
  function Decimal(n: nat): (s: seq<char>)
    ensures |s| >= 1 && AllDigits(s)
    ensures s[0] == '0' <==> n == 0
    decreases n
  {
    if n < 10 then [DigitChar(n)] else Decimal(n / 10) + [DigitChar(n % 10)]
  }

  /** The value a string of decimal digits denotes. */
  function ParseDecimal(s: seq<char>): nat
    requires AllDigits(s)
    decreases |s|
  {
    if s == [] then 0
    else 10 * ParseDecimal(s[..|s| - 1]) + (s[|s| - 1] as int - '0' as int)
  }

  /** Reading back the rendered number gives the number. */
  lemma {:induction false} DecimalRoundTrip(n: nat)
    ensures ParseDecimal(Decimal(n)) == n
    decreases n
  {
    if n >= 10 {
      var s := Decimal(n);
      assert s[..|s| - 1] == Decimal(n / 10);
      DecimalRoundTrip(n / 10);
    }
  }
}
