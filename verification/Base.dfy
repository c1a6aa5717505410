/** Vocabulary shared by every service model: optional values, results, clock units. */
module Base {

  /** Row identifiers. Tables are sequences, so an identifier is a position. */
  type Id = nat

  datatype Option<+T> = None | Some(value: T)

  /** The exceptions the services throw, by HTTP class. */
  datatype Error = NotFound | BadRequest | Forbidden | Conflict

  datatype Result<+T> = Ok(value: T) | Err(error: Error)

  const MINUTE_MS: int := 60000
  const HOUR_MS: int := 3600000
  const DAY_MS: int := 86400000

  /** A calendar date, in days from 1970-01-01. */
  type Day = int

  /** A clock time "HH:mm" as minutes after midnight. */
  type TimeOfDay = m: int | 0 <= m < 1440 witness 0

  /** JavaScript's Math.round: the nearest integer, halves going up. */
  function Round(x: real): (r: int)
    ensures r as real - 0.5 <= x < r as real + 0.5
  {
    (x + 0.5).Floor
  }

  lemma RoundMonotone(x: real, y: real)
    requires x <= y
    ensures Round(x) <= Round(y)
  {
  }

  lemma HasElement(s: set<int>)
    requires s != {}
    ensures exists x :: x in s
  {
    if forall x :: x !in s {
      assert false;
    }
  }

  lemma {:induction false} HasLeast(s: set<int>)
    requires s != {}
    ensures exists m :: m in s && forall y | y in s :: m <= y
  {
    HasElement(s);
    var x :| x in s;
    var rest := s - {x};
    if rest == {} {
      assert s == {x};
      assert x in s && forall y | y in s :: x <= y;
    } else {
      HasLeast(rest);
      var m :| m in rest && forall y | y in rest :: m <= y;
      var least := if x <= m then x else m;
      assert forall y | y in s :: y == x || y in rest;
      assert least in s && forall y | y in s :: least <= y;
    }
  }

  /** The least element: what `orderBy ... asc` followed by "first" returns. */
  function Least(s: set<int>): (m: int)
    requires s != {}
    ensures m in s && forall y | y in s :: m <= y
  {
    HasLeast(s);
    var m :| m in s && forall y | y in s :: m <= y;
    m
  }

  /** {1, ..., n}. */
  function OneTo(n: nat): (s: set<int>)
    ensures |s| == n
    ensures forall k :: k in s <==> 1 <= k <= n
  {
    if n == 0 then {} else OneTo(n - 1) + {n}
  }

  lemma SubsetSize<T>(a: set<T>, b: set<T>)
    requires a <= b
    ensures |a| <= |b|
  {
    assert b == a + (b - a);
  }
}
