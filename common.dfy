/** Small shared vocabulary: optional values, duplicate-free lists, string prefixes. */
module Common {

  /** A value that may be missing (`undefined` / `null` in the servers). */
  datatype Option<T> = None | Some(value: T) {
    /** `x ?? default` / `x || default` for a stored value. */
    function GetOr(default: T): T {
      if Some? then value else default
    }
  }

  /** No element occurs twice. */
  ghost predicate NoDup<T>(xs: seq<T>) {
    forall i, j :: 0 <= i < j < |xs| ==> xs[i] != xs[j]
  }

  /** `s.startsWith(prefix)` */
  predicate StartsWith(s: string, prefix: string) {
    |prefix| <= |s| && s[..|prefix|] == prefix
  }

  /** `xs.filter((x) => x !== y)`: the elements other than `y`, in their order. */
  function Without(xs: seq<string>, y: string): (r: seq<string>)
    ensures |r| <= |xs|
    ensures forall x :: x in r <==> x in xs && x != y
  {
    if xs == [] then []
    else if xs[0] == y then Without(xs[1..], y)
    else [xs[0]] + Without(xs[1..], y)
  }

  /** Concatenation regroups freely. */
  lemma ConcatAssoc<T>(a: seq<T>, b: seq<T>, c: seq<T>)
    ensures (a + b) + c == a + (b + c)
  {
  }

  /** Moving the first element of `b` to the end of `a` leaves the concatenation as it was. */
  lemma ShiftFirst<T>(a: seq<T>, b: seq<T>)
    requires b != []
    ensures (a + [b[0]]) + b[1..] == a + b
  {
    assert b == [b[0]] + b[1..];
  }

  /** Replacing an element past the first one is replacing it in the tail. */
  lemma ConsUpdate<T>(xs: seq<T>, k: nat, x: T)
    requires 0 < k < |xs|
    ensures [xs[0]] + xs[1..][k - 1 := x] == xs[k := x]
  {
    var a, b := [xs[0]] + xs[1..][k - 1 := x], xs[k := x];
    assert |a| == |b|;
    forall i | 0 <= i < |a| ensures a[i] == b[i] {
      if i > 0 {
        assert a[i] == xs[1..][k - 1 := x][i - 1];
      }
    }
  }

  /** Filtering out an element that is not there changes nothing. */
  lemma {:induction false} WithoutAbsent(xs: seq<string>, y: string)
    requires y !in xs
    ensures Without(xs, y) == xs
  {
    if xs != [] {
      WithoutAbsent(xs[1..], y);
    }
  }

  /** Filtering keeps a duplicate-free list duplicate-free. */
  lemma {:induction false} WithoutNoDup(xs: seq<string>, y: string)
    requires NoDup(xs)
    ensures NoDup(Without(xs, y))
  {
    if xs != [] {
      assert NoDup(xs[1..]) by {
        forall i, j | 0 <= i < j < |xs[1..]| ensures xs[1..][i] != xs[1..][j] {
          assert xs[1..][i] == xs[i + 1] && xs[1..][j] == xs[j + 1];
        }
      }
      WithoutNoDup(xs[1..], y);
      if xs[0] != y {
        var w := Without(xs[1..], y);
        assert xs[0] !in w by {
          assert forall k :: 0 < k < |xs| ==> xs[k] != xs[0];
          assert xs[0] !in xs[1..];
        }
        assert [xs[0]] + w == Without(xs, y);
        forall i, j | 0 <= i < j < |[xs[0]] + w| ensures ([xs[0]] + w)[i] != ([xs[0]] + w)[j] {
          if i == 0 {
            assert ([xs[0]] + w)[j] == w[j - 1];
          } else {
            assert ([xs[0]] + w)[i] == w[i - 1] && ([xs[0]] + w)[j] == w[j - 1];
          }
        }
      }
    }
  }
}
