/** Strings as the Go code sees them (sequences of bytes, one `char` a byte), decimal
    printing, splitting at a separator, and byte-wise lexicographic order. */
module Strings {

  datatype Option<+T> = None | Some(value: T)
  {
    function GetOr(default: T): T { if Some? then value else default }
  }

  datatype Result<+T, +E> = Ok(value: T) | Err(error: E)

  function Digit(d: nat): char
    requires d < 10
  {
    ('0' as int + d) as char
  }

  predicate IsDigit(c: char) {
    '0' <= c <= '9'
  }

  /** `%d` of a non-negative number. */
  function Natural(n: nat): (s: string)
    ensures s != "" && forall c | c in s :: IsDigit(c)
    ensures n > 0 ==> s[0] != '0'
    ensures n == 0 ==> s == "0"
  {
    if n < 10 then [Digit(n)] else Natural(n / 10) + [Digit(n % 10)]
  }

  /** `fmt.Sprint` of an integer. */
  function Sprint(i: int): string {
    if i < 0 then "-" + Natural(-i) else Natural(i)
  }

  /** Reads a digit string back; the inverse of `Natural`. */
  function Value(s: string): nat
    requires forall c | c in s :: IsDigit(c)
  {
    if s == "" then 0 else
      assert IsDigit(s[|s| - 1]);
      10 * Value(s[..|s| - 1]) + (s[|s| - 1] as int - '0' as int)
  }

  lemma {:induction false} NaturalRoundTrip(n: nat)
    ensures Value(Natural(n)) == n
  {
    if n >= 10 {
      NaturalRoundTrip(n / 10);
      assert Natural(n)[..|Natural(n)| - 1] == Natural(n / 10);
    }
  }

  /** Decimal printing loses nothing, signs included. */
  lemma SprintInjective(a: int, b: int)
    ensures Sprint(a) == Sprint(b) <==> a == b
  {
    if Sprint(a) == Sprint(b) {
      assert a < 0 ==> Sprint(a)[0] == '-' && Sprint(a)[1..] == Natural(-a);
      assert b < 0 ==> Sprint(b)[0] == '-' && Sprint(b)[1..] == Natural(-b);
      assert a >= 0 ==> IsDigit(Sprint(a)[0]);
      assert b >= 0 ==> IsDigit(Sprint(b)[0]);
      NaturalRoundTrip(if a < 0 then -a else a);
      NaturalRoundTrip(if b < 0 then -b else b);
    }
  }

  /** Position of the first `c` in `s`, or `|s|`. */
  function IndexOf(s: string, c: char): (i: nat)
    ensures i <= |s|
    ensures c !in s[..i]
    ensures i < |s| ==> s[i] == c
  {
    if s == "" || s[0] == c then 0 else 1 + IndexOf(s[1..], c)
  }

  /** `strings.SplitN(s, c, 2)`: the text before and after the first `c`, or nothing when `c` is absent. */
  function Cut(s: string, c: char): Option<(string, string)> {
    var i := IndexOf(s, c);
    if i == |s| then None else Some((s[..i], s[i + 1..]))
  }

  /** Cutting undoes joining exactly when the separator is not in the first half. */
  lemma CutJoined(a: string, c: char, b: string)
    ensures Cut(a + [c] + b, c).Some?
    ensures c !in a ==> Cut(a + [c] + b, c) == Some((a, b))
    ensures c in a ==> Cut(a + [c] + b, c).value.0 != a
  {
    var s := a + [c] + b;
    var i := IndexOf(s, c);
    assert s[|a|] == c;
    if c !in a {
      assert s[..i] == a && s[i + 1..] == b;
    }
  }

  /** Byte-wise `a < b`, the order of an `ORDER BY` over text. */
  predicate Before(a: string, b: string) {
    if b == "" then false
    else if a == "" then true
    else a[0] < b[0] || (a[0] == b[0] && Before(a[1..], b[1..]))
  }

  lemma Regroup<T>(a: seq<T>, b: seq<T>, c: seq<T>)
    ensures a + b + c == a + (b + c)
  {
  }

  /** Appending to the whole and to its last part is the same. */
  lemma Woven<T>(x: seq<T>, y: seq<T>, z: seq<T>, last: seq<T>, front: seq<T>, all: seq<T>, after: seq<T>)
    requires front == x + y + z && all == front + last && after == z + last
    ensures all == x + y + after
  {
    Regroup(x + y, z, last);
  }

  /** The surroundings of an element in a sequence and in its front. */
  lemma SlicesAround<T>(s: seq<T>, i: nat)
    requires i + 1 < |s|
    ensures var n := |s| - 1;
      && s[..n][..i] == s[..i] && s[..n][i] == s[i]
      && |s[i + 1..]| > 0 && s[..n][i + 1..] == s[i + 1..][..|s[i + 1..]| - 1] && s[i + 1..][|s[i + 1..]| - 1] == s[n]
  {
  }
}
