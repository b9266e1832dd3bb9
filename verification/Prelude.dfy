/** Small shared vocabulary: optional values, duplicate-free lists, and list unlinking. */
module Prelude {

  datatype Option<+T> = None | Some(value: T)

  ghost predicate NoDup<T>(s: seq<T>) {
    forall i, j :: 0 <= i < j < |s| ==> s[i] != s[j]
  }

  /** Position of the first occurrence. */
  function IndexOf<T(==)>(s: seq<T>, x: T): (k: nat)
    requires x in s
    ensures k < |s| && s[k] == x
    ensures forall i :: 0 <= i < k ==> s[i] != x
  {
    if s[0] == x then 0 else 1 + IndexOf(s[1..], x)
  }

  /** `wl_list_remove`: unlink one node, keep the order of the rest. */
  function Without<T(==,!new)>(s: seq<T>, x: T): (r: seq<T>)
    ensures x !in s ==> r == s
    ensures x in s ==> |r| == |s| - 1 && forall i :: 0 <= i < |r| ==> r[i] == s[if i < IndexOf(s, x) then i else i + 1]
    ensures NoDup(s) ==> NoDup(r) && forall y :: y in r <==> y in s && y != x
  {
    if x !in s then s
    else
      var k := IndexOf(s, x);
      assert forall y :: y in s && y != x ==> y in s[..k] + s[k + 1..] by {
        assert s == s[..k] + [s[k]] + s[k + 1..];
      }
      s[..k] + s[k + 1..]
  }

  lemma MulMono(a: int, b: int, c: int)
    requires a <= b && 0 <= c
    ensures a * c <= b * c
  {
  }

  lemma DivBounds(a: int, b: int)
    requires a >= 0 && b > 0
    ensures 0 <= a / b && b * (a / b) <= a < b * (a / b) + b
  {
    assert a == b * (a / b) + a % b;
  }

  /** The quotient is pinned down by its bounds. */
  lemma DivUnique(a: int, b: int, q: int)
    requires a >= 0 && b > 0 && b * q <= a < b * q + b
    ensures a / b == q
  {
    DivBounds(a, b);
    if q < a / b {
      MulMono(q + 1, a / b, b);
    } else {
      MulMono(a / b, q, b);
      if a / b < q {
        MulMono(a / b + 1, q, b);
      }
    }
  }

  lemma DivMono(a: int, b: int, c: int)
    requires 0 <= a <= b && c > 0
    ensures 0 <= a / c <= b / c
  {
    DivBounds(a, c);
    DivBounds(b, c);
    if b / c < a / c {
      MulMono(b / c + 1, a / c, c);
    }
  }
}
