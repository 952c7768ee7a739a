/**
 * The two pieces of text the handler builds itself: the `org/key` project
 * key (`format!("{}/{}", org, key)`) and the decimal rendering of the poll
 * tick counter (`format!(" [{}]", times)`).
 */
module Text {
  import opened Types

  predicate IsDigit(c: char) {
    '0' <= c <= '9'
  }

  /** `Display` of an unsigned integer: decimal, no sign, no leading zeros. */
  function Decimal(n: nat): (s: string)
    ensures |s| >= 1
    ensures forall i :: 0 <= i < |s| ==> IsDigit(s[i])
    ensures s[0] == '0' ==> n == 0
    decreases n
  {
    if n < 10 then [('0' as int + n) as char]
    else Decimal(n / 10) + [('0' as int + n % 10) as char]
  }

  /** The number a string of decimal digits denotes. */
  function DecimalValue(s: string): nat
    requires forall i :: 0 <= i < |s| ==> IsDigit(s[i])
  {
    if s == [] then 0
    else
      assert IsDigit(s[|s| - 1]);
      DecimalValue(s[..|s| - 1]) * 10 + (s[|s| - 1] as int - '0' as int)
  }

  /** Reading back a rendered counter gives the counter: distinct ticks print distinctly. */
  lemma {:induction false} DecimalRoundTrip(n: nat)
    ensures DecimalValue(Decimal(n)) == n
    decreases n
  {
    var s := Decimal(n);
    if n >= 10 {
      DecimalRoundTrip(n / 10);
      assert s[..|s| - 1] == Decimal(n / 10);
    }
  }

  /** The project key every backend call that names a project is addressed with. */
  function ProjectKey(org: string, key: string): (k: string)
    ensures |k| == |org| + 1 + |key|
    ensures k[|org|] == '/' && k[..|org|] == org && k[|org| + 1..] == key
  {
    org + "/" + key
  }

  /** Splits a project key at its first `/`; `None` when there is none. */
  function SplitProjectKey(k: string): Option<(string, string)> {
    if k == [] then None
    else if k[0] == '/' then Some(([], k[1..]))
    else match SplitProjectKey(k[1..])
      case None => None
      case Some(parts) => Some(([k[0]] + parts.0, parts.1))
  }

  /** An organisation name without `/` and its project key can be recovered from
    * the joined `org/key` string, so distinct projects get distinct keys. */
  lemma {:induction false} SplitProjectKeyInverse(org: string, key: string)
    requires forall i :: 0 <= i < |org| ==> org[i] != '/'
    ensures SplitProjectKey(ProjectKey(org, key)) == Some((org, key))
    decreases |org|
  {
    var k := ProjectKey(org, key);
    if org != [] {
      assert k[1..] == ProjectKey(org[1..], key);
      SplitProjectKeyInverse(org[1..], key);
      assert [org[0]] + org[1..] == org;
    }
  }
}
