/** Small helpers shared by the modules of the pagination model. */
module Common {

  datatype Option<+T> = None | Some(value: T)

  /** `last(arr)` (build/bindery.js:799-801): the final element, or `undefined` (None) when empty. */
  function Last<T>(s: seq<T>): (r: Option<T>)
    ensures r.None? <==> s == []
    ensures r.Some? ==> r.value == s[|s| - 1] && r.value in s
  {
    if s == [] then None else Some(s[|s| - 1])
  }

  /** `Array.prototype.indexOf` / the `indexof` shim (build/bindery.js:1346-1352):
      the first position holding `x`, or -1. */
  function IndexOf<T(==)>(s: seq<T>, x: T): (r: int)
    ensures -1 <= r < |s|
    ensures r == -1 <==> x !in s
    ensures 0 <= r ==> s[r] == x && x !in s[..r]
  {
    if s == [] then -1
    else if s[0] == x then 0
    else
      var k := IndexOf(s[1..], x);
      assert s[1..][..if k < 0 then 0 else k] == s[1..if k < 0 then 1 else k + 1];
      if k < 0 then -1 else k + 1
  }

  /** `list.splice(index, 1)`: drops the element at `i`. */
  function RemoveAt<T>(s: seq<T>, i: nat): (r: seq<T>)
    requires i < |s|
  {
    s[..i] + s[i + 1..]
  }

  /** The first occurrence of `x` removed (`removeChild` on a child list). */
  function RemoveFirst<T(==)>(s: seq<T>, x: T): (r: seq<T>)
  {
    var k := IndexOf(s, x);
    if k < 0 then s else RemoveAt(s, k)
  }

  lemma RemoveFirstSubset<T>(s: seq<T>, x: T)
    ensures forall y | y in RemoveFirst(s, x) :: y in s
  {
    var k := IndexOf(s, x);
    if 0 <= k {
      var r := RemoveFirst(s, x);
      assert r == s[..k] + s[k + 1..];
      forall y | y in r ensures y in s {
        var j :| 0 <= j < |r| && r[j] == y;
        if j < k { assert s[j] == y; } else { assert s[j + 1] == y; }
      }
    }
  }

  lemma SeqAssoc<T>(a: seq<T>, b: seq<T>, c: seq<T>)
    ensures (a + b) + c == a + (b + c)
  {
  }

  lemma TakeSnoc<T>(s: seq<T>, n: nat)
    requires 1 <= n <= |s|
    ensures s[..n] == s[..n - 1] + [s[n - 1]]
  {
  }

  function Abs(x: real): real { if x < 0.0 then -x else x }

  function Min(a: int, b: int): int { if a < b then a else b }

  function Max(a: int, b: int): int { if a < b then b else a }
}
