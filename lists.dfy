/** Concatenating what each element of a list contributes, in list order: the
    shape of every nested "for each entry, append its results" loop here. */
module Lists {

  /** What each element of `xs` contributes, concatenated in order. */
  function Collect<A, B>(xs: seq<A>, f: A -> seq<B>): seq<B>
  {
    if xs == [] then []
    else Collect(xs[..|xs| - 1], f) + f(xs[|xs| - 1])
  }

  /** One more element appends its contribution. */
  lemma CollectSnoc<A, B>(xs: seq<A>, x: A, f: A -> seq<B>)
    ensures Collect(xs + [x], f) == Collect(xs, f) + f(x)
  {
    assert (xs + [x])[..|xs|] == xs;
  }

  /** Collecting a concatenation collects each part, in order. */
  lemma {:induction false} CollectAppend<A, B>(a: seq<A>, b: seq<A>, f: A -> seq<B>)
    ensures Collect(a + b, f) == Collect(a, f) + Collect(b, f)
  {
    if b == [] {
      assert a + b == a;
    } else {
      var b', last := b[..|b| - 1], b[|b| - 1];
      assert b == b' + [last];
      assert a + b == (a + b') + [last];
      CollectAppend(a, b', f);
      CollectSnoc(a + b', last, f);
      CollectSnoc(b', last, f);
    }
  }

  /** `y` is part of what element `k` of `xs` contributes. */
  predicate ContributedBy<A, B(==)>(xs: seq<A>, f: A -> seq<B>, k: int, y: B)
  {
    0 <= k < |xs| && y in f(xs[k])
  }

  /** A value is collected exactly when some element contributed it. */
  lemma {:induction false} CollectMembership<A, B>(xs: seq<A>, f: A -> seq<B>, y: B)
    ensures y in Collect(xs, f) <==> exists k :: ContributedBy(xs, f, k, y)
  {
    if xs != [] {
      var n := |xs| - 1;
      CollectMembership(xs[..n], f, y);
      if y in Collect(xs[..n], f) {
        var k :| ContributedBy(xs[..n], f, k, y);
        assert ContributedBy(xs, f, k, y);
      } else if y in f(xs[n]) {
        assert ContributedBy(xs, f, n, y);
      }
      if exists k :: ContributedBy(xs, f, k, y) {
        var k :| ContributedBy(xs, f, k, y);
        if k < n {
          assert ContributedBy(xs[..n], f, k, y);
        }
      }
    }
  }
}
