/** Sequences within sequences. */
module Sequences {
  /** `part` can be got from `all` by leaving elements out: same order, and no more of each. */
  ghost predicate Within<T>(part: seq<T>, all: seq<T>)
    decreases |all|
  {
    part == [] ||
    (all != [] &&
     ((part[|part| - 1] == all[|all| - 1] && Within(part[..|part| - 1], all[..|all| - 1]))
      || Within(part, all[..|all| - 1])))
  }

  lemma {:induction false} WithinMore<T>(part: seq<T>, all: seq<T>, more: seq<T>)
    requires Within(part, all)
    ensures Within(part + more, all + more)
  {
    if more == [] {
      assert part + more == part && all + more == all;
    } else {
      var init := more[..|more| - 1];
      WithinMore(part, all, init);
      assert (part + more)[..|part + more| - 1] == part + init && (all + more)[..|all + more| - 1] == all + init;
    }
  }

  lemma {:induction false} WithinLonger<T>(part: seq<T>, all: seq<T>, extra: seq<T>)
    requires Within(part, all)
    ensures Within(part, all + extra)
  {
    if extra == [] {
      assert all + extra == all;
    } else {
      var init := extra[..|extra| - 1];
      WithinLonger(part, all, init);
      assert (all + extra)[..|all + extra| - 1] == all + init;
    }
  }

  lemma {:induction false} WithinWithin<T>(a: seq<T>, b: seq<T>, c: seq<T>)
    requires Within(a, b) && Within(b, c)
    ensures Within(a, c)
    decreases |b| + |c|
  {
    if a != [] {
      var b', c' := b[..|b| - 1], c[..|c| - 1];
      if Within(b, c') {
        WithinWithin(a, b, c');
      } else if Within(a, b') {
        WithinWithin(a, b', c');
      } else {
        WithinWithin(a[..|a| - 1], b', c');
      }
    }
  }

  /** So nothing in the part is missing, however often it occurs. */
  lemma {:induction false} WithinBag<T>(part: seq<T>, all: seq<T>)
    requires Within(part, all)
    ensures multiset(part) <= multiset(all)
    decreases |all|
  {
    if part != [] {
      var init, last := all[..|all| - 1], all[|all| - 1];
      assert all == init + [last];
      if Within(part, init) {
        WithinBag(part, init);
      } else {
        WithinBag(part[..|part| - 1], init);
        assert part == part[..|part| - 1] + [last];
      }
    }
  }

  lemma {:induction false} WithinItself<T>(s: seq<T>)
    ensures Within(s, s)
  {
    if s != [] { WithinItself(s[..|s| - 1]); }
  }

  /** A stretch of a sequence is within it. */
  lemma {:induction false} WithinCut<T>(s: seq<T>, k: nat)
    requires k <= |s|
    ensures Within(s[..k], s) && Within(s[k..], s)
  {
    var l, r := s[..k], s[k..];
    assert s == l + r;
    WithinItself(l);
    WithinLonger(l, l, r);
    assert Within([], l);
    WithinMore([], l, r);
    assert [] + r == r;
  }
}
