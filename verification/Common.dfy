/** Small vocabulary shared by the modules of the project. */
module Common {

  datatype Option<+T> = None | Some(value: T)

  function Max(a: int, b: int): int { if a >= b then a else b }

  /** A set that is not empty has a member. */
  lemma Member<T>(s: set<T>) returns (x: T)
    requires s != {}
    ensures x in s
  {
    x :| x in s;
  }

  lemma ProductMonotone(a: int, b: int, n: int)
    requires a <= b && n >= 0
    ensures a * n <= b * n
  {
    assert (b - a) * n >= 0;
    assert b * n == a * n + (b - a) * n;
  }

  lemma ConcatAssoc<T>(a: seq<T>, b: seq<T>, c: seq<T>)
    ensures a + b + c == a + (b + c)
  {
  }

  /** What a `deque(maxlen=n)` holds once the elements of `s` were appended to it in order. */
  function LastN<T>(s: seq<T>, n: nat): seq<T> {
    if |s| <= n then s else s[|s| - n..]
  }

  /** Appending to the bounded deque drops at most its oldest element. */
  lemma LastNAppend<T>(s: seq<T>, x: T, n: nat)
    ensures LastN(s + [x], n) == LastN(LastN(s, n) + [x], n)
  {
    if |s| > n {
      assert (s + [x])[|s| + 1 - n..] == (s[|s| - n..] + [x])[1..];
    }
  }

  /** The concatenation of the parts, in order. */
  function Flatten<T>(parts: seq<seq<T>>): seq<T> {
    if parts == [] then [] else parts[0] + Flatten(parts[1..])
  }

  lemma {:induction false} FlattenSnoc<T>(parts: seq<seq<T>>, last: seq<T>)
    ensures Flatten(parts + [last]) == Flatten(parts) + last
  {
    if parts == [] {
      assert parts + [last] == [last];
      assert [last][1..] == [];
    } else {
      FlattenSnoc(parts[1..], last);
      assert (parts + [last])[1..] == parts[1..] + [last];
      ConcatAssoc(parts[0], Flatten(parts[1..]), last);
    }
  }

  lemma {:induction false} FlattenAppend<T>(a: seq<seq<T>>, b: seq<seq<T>>)
    ensures Flatten(a + b) == Flatten(a) + Flatten(b)
  {
    if a == [] {
      assert a + b == b;
    } else {
      FlattenAppend(a[1..], b);
      assert (a + b)[1..] == a[1..] + b;
      ConcatAssoc(a[0], Flatten(a[1..]), Flatten(b));
    }
  }

  ghost predicate Increasing(s: seq<int>) {
    forall i, j :: 0 <= i < j < |s| ==> s[i] < s[j]
  }

  ghost predicate NonDecreasing(s: seq<int>) {
    forall i, j :: 0 <= i <= j < |s| ==> s[i] <= s[j]
  }

  /** Strictly increasing integers spread: the i-th element lies at least `j - i` below the j-th. */
  lemma {:induction false} IncreasingSpread(s: seq<int>, i: nat, j: nat)
    requires Increasing(s) && i <= j < |s|
    ensures s[j] - s[i] >= j - i
    decreases j - i
  {
    if i < j {
      IncreasingSpread(s, i, j - 1);
    }
  }

  /** What `f` picks out of each element, in order. */
  function Collect<T, U>(s: seq<T>, f: T -> Option<U>): seq<U> {
    if s == [] then [] else
      var x := f(s[|s| - 1]);
      Collect(s[..|s| - 1], f) + (if x.Some? then [x.value] else [])
  }

  lemma CollectSnoc<T, U>(s: seq<T>, last: T, f: T -> Option<U>)
    ensures Collect(s + [last], f) == if f(last).Some? then Collect(s, f) + [f(last).value] else Collect(s, f)
  {
    assert (s + [last])[..|s|] == s;
    assert Collect(s, f) + [] == Collect(s, f);
  }

  lemma {:induction false} CollectAppend<T, U>(a: seq<T>, b: seq<T>, f: T -> Option<U>)
    ensures Collect(a + b, f) == Collect(a, f) + Collect(b, f)
    decreases |b|
  {
    if b == [] {
      assert a + b == a;
      assert Collect(a, f) + [] == Collect(a, f);
    } else {
      var init, last := b[..|b| - 1], b[|b| - 1];
      CollectAppend(a, init, f);
      CollectSnoc(a + init, last, f);
      CollectSnoc(init, last, f);
      assert init + [last] == b && a + init + [last] == a + b;
      if f(last).Some? {
        ConcatAssoc(Collect(a, f), Collect(init, f), [f(last).value]);
      }
    }
  }

  function Picked<T, U>(f: T -> Option<U>, x: T): seq<U> { if f(x).Some? then [f(x).value] else [] }

  lemma CollectOne<T, U>(x: T, f: T -> Option<U>)
    ensures Collect([x], f) == Picked(f, x)
  {
    CollectSnoc([], x, f);
    assert [] + [x] == [x];
  }

  lemma CollectTwo<T, U>(x: T, y: T, f: T -> Option<U>)
    ensures Collect([x, y], f) == Picked(f, x) + Picked(f, y)
  {
    CollectAppend([x], [y], f);
    CollectOne(x, f);
    CollectOne(y, f);
    assert [x] + [y] == [x, y];
  }

  /** Whatever was collected was picked out of some element. */
  lemma {:induction false} Collected<T, U>(s: seq<T>, f: T -> Option<U>, k: nat) returns (i: nat)
    requires k < |Collect(s, f)|
    ensures i < |s| && f(s[i]) == Some(Collect(s, f)[k])
    decreases |s|
  {
    var n := |s| - 1;
    if k < |Collect(s[..n], f)| {
      i := Collected(s[..n], f, k);
    } else {
      i := n;
    }
  }
}
