/** Failure-free wrappers and the few sequence facts shared by every module. */
module Common {
  datatype Option<+T> = None | Some(value: T)

  datatype Result<+T, +E> = Ok(value: T) | Err(error: E)

  lemma InitOfSnoc<T>(s: seq<T>, x: T)
    ensures (s + [x])[..|s|] == s && (s + [x])[|s|] == x
  {
  }

  lemma TakeSnoc<T>(s: seq<T>, k: nat)
    requires k < |s|
    ensures s[..k] + [s[k]] == s[..k + 1]
    ensures s[..k + 1][..k] == s[..k] && s[..k + 1][k] == s[k]
  {
  }

  lemma TakeAll<T>(s: seq<T>)
    ensures s[..|s|] == s
  {
  }

  lemma SumAssoc<T>(a: seq<T>, b: seq<T>, c: seq<T>)
    ensures a + (b + c) == a + b + c
  {
  }

  function Flatten<T>(ss: seq<seq<T>>): seq<T> {
    if ss == [] then [] else ss[0] + Flatten(ss[1..])
  }

  lemma {:induction false} FlattenAppend<T>(a: seq<seq<T>>, b: seq<seq<T>>)
    ensures Flatten(a + b) == Flatten(a) + Flatten(b)
  {
    if a == [] {
      assert a + b == b;
    } else {
      assert (a + b)[1..] == a[1..] + b;
      FlattenAppend(a[1..], b);
    }
  }

  lemma FlattenSnoc<T>(a: seq<seq<T>>, x: seq<T>)
    ensures Flatten(a + [x]) == Flatten(a) + x
  {
    FlattenAppend(a, [x]);
    assert Flatten([x]) == x + Flatten([x][1..]);
  }

  lemma FlattenAround<T>(a: seq<seq<T>>, x: seq<T>, b: seq<seq<T>>)
    ensures Flatten(a + ([x] + b)) == Flatten(a) + x + Flatten(b)
  {
    FlattenAppend(a, [x] + b);
    assert ([x] + b)[1..] == b;
  }

  lemma FlattenHead<T>(read: seq<T>, ss: seq<seq<T>>)
    requires ss != []
    ensures read + Flatten(ss) == read + ss[0] + Flatten(ss[1..])
  {
  }

  /** A finite sum over a set of keys. */
  ghost function SumOver<K>(s: set<K>, f: K -> nat): nat {
    if s == {} then 0 else
      var k :| k in s;
      f(k) + SumOver(s - {k}, f)
  }

  lemma {:induction false} SumOverChange<K>(s: set<K>, f: K -> nat, g: K -> nat, k: K)
    requires k in s
    requires forall x :: x in s && x != k ==> f(x) == g(x)
    ensures SumOver(s, g) + f(k) == SumOver(s, f) + g(k)
  {
    var x :| x in s && SumOver(s, f) == f(x) + SumOver(s - {x}, f)
                    && SumOver(s, g) == g(x) + SumOver(s - {x}, g);
    if x == k {
      SumOverSame(s - {k}, f, g);
    } else {
      SumOverChange(s - {x}, f, g, k);
    }
  }

  lemma {:induction false} SumOverSame<K>(s: set<K>, f: K -> nat, g: K -> nat)
    requires forall x :: x in s ==> f(x) == g(x)
    ensures SumOver(s, f) == SumOver(s, g)
  {
    if s != {} {
      var x :| x in s && SumOver(s, f) == f(x) + SumOver(s - {x}, f)
                      && SumOver(s, g) == g(x) + SumOver(s - {x}, g);
      SumOverSame(s - {x}, f, g);
    }
  }

  lemma {:induction false} SumOverRemove<K>(s: set<K>, f: K -> nat, k: K)
    requires k in s
    ensures SumOver(s, f) == f(k) + SumOver(s - {k}, f)
  {
    var x :| x in s && SumOver(s, f) == f(x) + SumOver(s - {x}, f);
    if x != k {
      SumOverRemove(s - {x}, f, k);
      SumOverRemove(s - {k}, f, x);
      assert s - {x} - {k} == s - {k} - {x};
    }
  }

  lemma {:induction false} SumOverSubset<K>(s: set<K>, t: set<K>, f: K -> nat)
    requires s <= t
    ensures SumOver(s, f) <= SumOver(t, f)
  {
    if s != {} {
      var x :| x in s;
      SumOverRemove(s, f, x);
      SumOverRemove(t, f, x);
      SumOverSubset(s - {x}, t - {x}, f);
    }
  }

  function AtOrZero<K(==)>(m: map<K, nat>): K -> nat {
    (k: K) => if k in m then m[k] else 0
  }
}
