/** Facts about sequences. */
module Sequences {

  lemma Assoc<T>(a: seq<T>, b: seq<T>, c: seq<T>)
    ensures (a + b) + c == a + (b + c)
  {
  }

  lemma NothingBefore(s: string)
    ensures "" + s == s
  {
  }

  function Concat(parts: seq<string>): string {
    if parts == [] then "" else parts[0] + Concat(parts[1..])
  }

  lemma {:induction false} ConcatSnoc(parts: seq<string>, s: string)
    ensures Concat(parts + [s]) == Concat(parts) + s
  {
    if parts != [] {
      assert (parts + [s])[1..] == parts[1..] + [s];
      ConcatSnoc(parts[1..], s);
    }
  }

  lemma ConcatPrefix(parts: seq<string>, k: nat)
    requires k < |parts|
    ensures Concat(parts[..k + 1]) == Concat(parts[..k]) + parts[k]
  {
    assert parts[..k + 1] == parts[..k] + [parts[k]];
    ConcatSnoc(parts[..k], parts[k]);
  }

  ghost predicate NoDuplicates<T>(xs: seq<T>) {
    forall i, j :: 0 <= i < j < |xs| ==> xs[i] != xs[j]
  }

  /** How many elements satisfy `f`. */
  ghost function Count<T>(xs: seq<T>, f: T -> bool): (n: nat)
    ensures n <= |xs|
  {
    if xs == [] then 0 else Count(xs[..|xs| - 1], f) + if f(xs[|xs| - 1]) then 1 else 0
  }

  lemma CountSnoc<T>(xs: seq<T>, x: T, f: T -> bool)
    ensures Count(xs + [x], f) == Count(xs, f) + if f(x) then 1 else 0
  {
    assert (xs + [x])[..|xs|] == xs;
  }

  lemma {:induction false} CountUpdate<T>(xs: seq<T>, k: nat, x: T, f: T -> bool)
    requires k < |xs|
    ensures Count(xs[k := x], f) + (if f(xs[k]) then 1 else 0) == Count(xs, f) + if f(x) then 1 else 0
  {
    var init := xs[..|xs| - 1];
    if k < |init| {
      CountUpdate(init, k, x, f);
      assert xs[k := x][..|init|] == init[k := x];
    } else {
      assert xs[k := x][..|init|] == init;
    }
  }

  lemma {:induction false} CountAll<T>(xs: seq<T>, f: T -> bool)
    ensures (forall k :: 0 <= k < |xs| ==> f(xs[k])) ==> Count(xs, f) == |xs|
    ensures forall k :: 0 <= k < |xs| && f(xs[k]) ==> Count(xs, f) > 0
  {
    if xs != [] {
      CountAll(xs[..|xs| - 1], f);
    }
  }

  lemma {:induction false} CountNone<T>(xs: seq<T>, f: T -> bool)
    requires forall k :: 0 <= k < |xs| ==> !f(xs[k])
    ensures Count(xs, f) == 0
  {
    if xs != [] {
      CountNone(xs[..|xs| - 1], f);
    }
  }
}
