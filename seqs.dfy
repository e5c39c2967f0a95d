/**
 * Generic sequence folds and searches the engine's loops are specified by:
 * a concatenating map over a prefix, and the first position in a range at
 * which a condition holds.
 */
module Seqs {

  lemma {:induction false} ConcatAssoc<T>(a: seq<T>, b: seq<T>, c: seq<T>)
    ensures (a + b) + c == a + (b + c)
  {
  }

  /** A concatenation splits back into its two parts. */
  lemma {:induction false} ConcatSlices<T>(x: seq<T>, y: seq<T>)
    ensures (x + y)[..|x|] == x && (x + y)[|x|..] == y
  {
  }

  /** Dropping `x` and then `y` from `x + (y + z)` leaves `z`. */
  lemma {:induction false} DropTwo<T>(x: seq<T>, y: seq<T>, z: seq<T>)
    ensures (x + (y + z))[|x| + |y|..] == z
  {
  }

  /** The concatenation of `f` applied to the first `n` elements, in order. */
  function FlatMapUpTo<T, U>(f: T -> seq<U>, xs: seq<T>, n: nat): seq<U>
    requires n <= |xs|
  {
    if n == 0 then [] else FlatMapUpTo(f, xs, n - 1) + f(xs[n - 1])
  }

  lemma {:induction false} FlatMapUpToPrefix<T, U>(f: T -> seq<U>, xs: seq<T>, ys: seq<T>, n: nat)
    requires n <= |xs| && n <= |ys| && xs[..n] == ys[..n]
    ensures FlatMapUpTo(f, xs, n) == FlatMapUpTo(f, ys, n)
  {
    if n > 0 {
      assert xs[n - 1] == xs[..n][n - 1] && ys[n - 1] == ys[..n][n - 1];
      assert xs[..n - 1] == xs[..n][..n - 1] && ys[..n - 1] == ys[..n][..n - 1];
      FlatMapUpToPrefix(f, xs, ys, n - 1);
    }
  }

  lemma {:induction false} FlatMapUpToConcat<T, U>(f: T -> seq<U>, xs: seq<T>, ys: seq<T>, m: nat)
    requires m <= |ys|
    ensures FlatMapUpTo(f, xs + ys, |xs| + m) == FlatMapUpTo(f, xs, |xs|) + FlatMapUpTo(f, ys, m)
  {
    if m == 0 {
      assert (xs + ys)[..|xs|] == xs[..|xs|];
      FlatMapUpToPrefix(f, xs + ys, xs, |xs|);
    } else {
      FlatMapUpToConcat(f, xs, ys, m - 1);
      assert (xs + ys)[|xs| + m - 1] == ys[m - 1];
      ConcatAssoc(FlatMapUpTo(f, xs, |xs|), FlatMapUpTo(f, ys, m - 1), f(ys[m - 1]));
    }
  }

  /** Mapping a concatenation maps each part in turn. */
  lemma {:induction false} FlatMapConcat<T, U>(f: T -> seq<U>, xs: seq<T>, ys: seq<T>)
    ensures FlatMapUpTo(f, xs + ys, |xs + ys|) == FlatMapUpTo(f, xs, |xs|) + FlatMapUpTo(f, ys, |ys|)
  {
    FlatMapUpToConcat(f, xs, ys, |ys|);
  }

  /** The map of a non-empty sequence starts with the image of its first element. */
  lemma {:induction false} FlatMapCons<T, U>(f: T -> seq<U>, xs: seq<T>)
    requires |xs| > 0
    ensures FlatMapUpTo(f, xs, |xs|) == f(xs[0]) + FlatMapUpTo(f, xs[1..], |xs| - 1)
  {
    assert xs == [xs[0]] + xs[1..];
    FlatMapConcat(f, [xs[0]], xs[1..]);
    assert FlatMapUpTo(f, [xs[0]], 1) == f(xs[0]);
  }

  /** Appending the image of the next element extends a partial map by one step. */
  lemma {:induction false} FlatMapStep<T, U>(f: T -> seq<U>, xs: seq<T>, i: nat, start: seq<U>, acc: seq<U>)
    requires i < |xs| && acc == start + FlatMapUpTo(f, xs, i)
    ensures acc + f(xs[i]) == start + FlatMapUpTo(f, xs, i + 1)
  {
    ConcatAssoc(start, FlatMapUpTo(f, xs, i), f(xs[i]));
  }

  /** `read` takes the written form of `x` off the front of `write(x) + rest`. */
  ghost predicate ReadsOne<T, U>(write: T -> seq<U>, read: seq<U> -> seq<T>, x: T, rest: seq<U>)
  {
    read(write(x) + rest) == [x] + read(rest)
  }

  /**
   * A reader that takes one written element off the front of its input, and
   * finds nothing in `closing`, reads a whole written sequence back.
   */
  lemma {:induction false} ReadBackWritten<T, U>(write: T -> seq<U>, read: seq<U> -> seq<T>, xs: seq<T>, closing: seq<U>)
    requires forall x, rest :: ReadsOne(write, read, x, rest)
    requires read(closing) == []
    ensures read(FlatMapUpTo(write, xs, |xs|) + closing) == xs
    decreases |xs|
  {
    if |xs| > 0 {
      var w := FlatMapUpTo(write, xs[1..], |xs| - 1);
      FlatMapCons(write, xs);
      ConcatAssoc(write(xs[0]), w, closing);
      assert ReadsOne(write, read, xs[0], w + closing);
      ReadBackWritten(write, read, xs[1..], closing);
      assert xs == [xs[0]] + xs[1..];
    } else {
      assert FlatMapUpTo(write, xs, 0) + closing == closing;
    }
  }

  /** `ReadBackWritten` for a reader that takes off only the elements `ok` admits, on a sequence of such elements. */
  lemma {:induction false} ReadBackWrittenWhere<T, U>(write: T -> seq<U>, read: seq<U> -> seq<T>, ok: T -> bool, xs: seq<T>, closing: seq<U>)
    requires forall x, rest :: ok(x) ==> ReadsOne(write, read, x, rest)
    requires forall k :: 0 <= k < |xs| ==> ok(xs[k])
    requires read(closing) == []
    ensures read(FlatMapUpTo(write, xs, |xs|) + closing) == xs
    decreases |xs|
  {
    if |xs| > 0 {
      var w := FlatMapUpTo(write, xs[1..], |xs| - 1);
      FlatMapCons(write, xs);
      ConcatAssoc(write(xs[0]), w, closing);
      assert ok(xs[0]);
      assert ReadsOne(write, read, xs[0], w + closing);
      assert forall k :: 0 <= k < |xs[1..]| ==> xs[1..][k] == xs[k + 1];
      ReadBackWrittenWhere(write, read, ok, xs[1..], closing);
      assert xs == [xs[0]] + xs[1..];
    } else {
      assert FlatMapUpTo(write, xs, 0) + closing == closing;
    }
  }

  /** The images under `f` of the first `n` elements of `xs`, in order. */
  function MapUpTo<T, U>(f: T -> U, xs: seq<T>, n: nat): seq<U>
    requires n <= |xs|
  {
    if n == 0 then [] else MapUpTo(f, xs, n - 1) + [f(xs[n - 1])]
  }

  /** One image per element, each at the element's own position. */
  lemma {:induction false} MapUpToIndex<T, U>(f: T -> U, xs: seq<T>, n: nat)
    requires n <= |xs|
    ensures |MapUpTo(f, xs, n)| == n
    ensures forall k :: 0 <= k < n ==> MapUpTo(f, xs, n)[k] == f(xs[k])
  {
    if n > 0 {
      MapUpToIndex(f, xs, n - 1);
    }
  }

  /** The first position in `from..last` at which `p` holds, if any. */
  function FirstFrom(p: nat -> bool, from: nat, last: nat): (r: int)
    ensures r == -1 || from <= r <= last
    decreases last + 1 - from
  {
    if from > last then -1
    else if p(from) then from
    else FirstFrom(p, from + 1, last)
  }

  /** The search finds the first position that satisfies the condition, and fails only when none does. */
  lemma {:induction false} FirstFromSpec(p: nat -> bool, from: nat, last: nat)
    ensures var r := FirstFrom(p, from, last);
            (r == -1 && forall q: nat :: from <= q <= last ==> !p(q))
            || (from <= r <= last && p(r) && forall q: nat :: from <= q < r ==> !p(q))
    decreases last + 1 - from
  {
    if from <= last && !p(from) {
      FirstFromSpec(p, from + 1, last);
    }
  }

  /** The positions in `from..last` at which `p` holds, in increasing order. */
  function AllFrom(p: nat -> bool, from: nat, last: nat): seq<nat>
    decreases last + 1 - from
  {
    if from > last then [] else (if p(from) then [from] else []) + AllFrom(p, from + 1, last)
  }

  /** `AllFrom` holds exactly the positions in range that satisfy the condition. */
  lemma {:induction false} AllFromMembers(p: nat -> bool, from: nat, last: nat)
    ensures forall q :: q in AllFrom(p, from, last) <==> from <= q <= last && p(q)
    decreases last + 1 - from
  {
    if from <= last {
      AllFromMembers(p, from + 1, last);
    }
  }

  /** The positions that hold start with the first one; with none, there are none. */
  lemma {:induction false} AllFromFirst(p: nat -> bool, from: nat, last: nat)
    ensures var f := FirstFrom(p, from, last);
            (f < 0 ==> AllFrom(p, from, last) == [])
            && (f >= 0 ==> AllFrom(p, from, last) == [f] + AllFrom(p, f + 1, last))
    decreases last + 1 - from
  {
    if from <= last && !p(from) {
      AllFromFirst(p, from + 1, last);
      assert AllFrom(p, from, last) == [] + AllFrom(p, from + 1, last);
    }
  }

  /** An element of the map comes from the image of one of the mapped elements. */
  lemma {:induction false} FlatMapMembers<T, U>(f: T -> seq<U>, xs: seq<T>, n: nat, y: U)
    requires n <= |xs|
    ensures y in FlatMapUpTo(f, xs, n) <==> exists k :: 0 <= k < n && y in f(xs[k])
  {
    if n > 0 {
      FlatMapMembers(f, xs, n - 1, y);
      if y in f(xs[n - 1]) {
        assert 0 <= n - 1 < n && y in f(xs[n - 1]);
      }
    }
  }

  /** When every element goes to exactly one of two maps, their lengths add up to the count. */
  lemma {:induction false} FlatMapSplitLengths<T, U, V>(f: T -> seq<U>, g: T -> seq<V>, xs: seq<T>, n: nat)
    requires n <= |xs|
    requires forall x :: |f(x)| + |g(x)| == 1
    ensures |FlatMapUpTo(f, xs, n)| + |FlatMapUpTo(g, xs, n)| == n
  {
    if n > 0 {
      FlatMapSplitLengths(f, g, xs, n - 1);
      assert |f(xs[n - 1])| + |g(xs[n - 1])| == 1;
    }
  }

  /** `keep` keeps `x` or drops it, and `f` is `h` on `x` when it is kept and empty otherwise. */
  ghost predicate KeptImage<T, U>(f: T -> seq<U>, h: T -> seq<U>, keep: T -> seq<T>, x: T)
  {
    (keep(x) == [x] && f(x) == h(x)) || (keep(x) == [] && f(x) == [])
  }

  /**
   * Mapping with `f`, which is `h` on the elements `keep` keeps and empty on
   * the others, is mapping `h` over the kept elements.
   */
  lemma {:induction false} FlatMapKept<T, U>(f: T -> seq<U>, h: T -> seq<U>, keep: T -> seq<T>, xs: seq<T>, n: nat)
    requires n <= |xs|
    requires forall x :: KeptImage(f, h, keep, x)
    ensures FlatMapUpTo(f, xs, n) == FlatMapUpTo(h, FlatMapUpTo(keep, xs, n), |FlatMapUpTo(keep, xs, n)|)
  {
    if n > 0 {
      var x := xs[n - 1];
      var kept := FlatMapUpTo(keep, xs, n - 1);
      FlatMapKept(f, h, keep, xs, n - 1);
      assert FlatMapUpTo(f, xs, n) == FlatMapUpTo(h, kept, |kept|) + f(x);
      assert FlatMapUpTo(keep, xs, n) == kept + keep(x);
      FlatMapConcat(h, kept, keep(x));
      assert KeptImage(f, h, keep, x);
      if keep(x) == [x] {
        assert FlatMapUpTo(h, [x], 1) == FlatMapUpTo(h, [x], 0) + h(x);
      } else {
        assert kept + [] == kept;
      }
    }
  }
}
