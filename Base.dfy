/** Small shared vocabulary: an Option type, ceiling division, selection
    of the elements of a sequence that an in-order loop keeps, and the
    subsequence relation. */
module Base {

  datatype Option<+T> = None | Some(value: T)

  /** `math.ceil(d / l)`. */
  function CeilDiv(d: nat, l: nat): nat
    requires l > 0
  {
    (d + l - 1) / l
  }

  lemma DivMod(a: int, b: int)
    requires b > 0
    ensures a == (a / b) * b + a % b && 0 <= a % b < b
  {
  }

  /** Division of `q * b + r` by `b` when `r` is a remainder. */
  lemma DivUnique(a: int, b: int, q: int, r: int)
    requires b > 0 && a == q * b + r && 0 <= r < b
    ensures a / b == q && a % b == r
  {
    var q', r' := a / b, a % b;
    assert a == q' * b + r' && 0 <= r' < b;
    assert (q - q') * b == r' - r;
    MulSmall(q - q', b);
  }

  /** The only multiple of `b` strictly between `-b` and `b` is zero. */
  lemma MulSmall(x: int, b: int)
    requires b > 0 && -b < x * b < b
    ensures x == 0
  {
    if x != 0 {
      MulAtLeast(x, b);
    }
  }

  lemma MulAtLeast(x: int, b: int)
    requires x != 0 && b > 0
    ensures x * b >= b || x * b <= -b
  {
  }

  /** `CeilDiv` is the ceiling: `n` blocks of `l` cover `d`, `n - 1` do
      not, and a zero `d` needs no block. */
  lemma CeilDivIsCeiling(d: nat, l: nat)
    requires l > 0
    ensures CeilDiv(d, l) * l >= d
    ensures CeilDiv(d, l) > 0 ==> (CeilDiv(d, l) - 1) * l < d
    ensures CeilDiv(d, l) == 0 <==> d == 0
  {
    var n, r := (d + l - 1) / l, (d + l - 1) % l;
    assert d + l - 1 == n * l + r && 0 <= r < l;
    assert n * l >= d;
    if n > 0 {
      assert (n - 1) * l == n * l - l;
    }
  }

  /** One more item needs one more block exactly when the items so far
      filled a whole number of blocks. */
  lemma CeilDivStep(n: nat, l: nat)
    requires l > 0
    ensures CeilDiv(n + 1, l) == CeilDiv(n, l) + (if n % l == 0 then 1 else 0)
    ensures n % l == 0 ==> CeilDiv(n, l) * l == n
  {
    var q, r := n / l, n % l;
    assert n == q * l + r;
    if r == 0 {
      DivUnique(n + l - 1, l, q, l - 1);
      DivUnique(n + 1 + l - 1, l, q + 1, 0);
    } else {
      DivUnique(n + l - 1, l, q + 1, r - 1);
      DivUnique(n + 1 + l - 1, l, q + 1, r);
    }
  }

  /** The images under `f` of the elements of `s` for which `f` gives `Some`,
      in the order of `s` (what a loop that appends only on success builds). */
  function FilterMap<A, B>(s: seq<A>, f: A -> Option<B>): (r: seq<B>)
    ensures |r| <= |s|
    decreases |s|
  {
    if s == [] then []
    else
      var init := FilterMap(s[..|s| - 1], f);
      match f(s[|s| - 1])
      case Some(b) => init + [b]
      case None => init
  }

  /** The positions of `s` that `FilterMap(s, f)` keeps. */
  function Hits<A, B>(s: seq<A>, f: A -> Option<B>): seq<nat>
    decreases |s|
  {
    if s == [] then []
    else
      var init := Hits(s[..|s| - 1], f);
      if f(s[|s| - 1]).Some? then init + [|s| - 1] else init
  }

  predicate Increasing(xs: seq<nat>)
  {
    forall j, k :: 0 <= j < k < |xs| ==> xs[j] < xs[k]
  }

  /** One loop step: appending an element extends the selection by that
      element's image, if it has one. */
  lemma FilterMapSnoc<A, B>(s: seq<A>, x: A, f: A -> Option<B>)
    ensures FilterMap(s + [x], f) == FilterMap(s, f) + (if f(x).Some? then [f(x).value] else [])
  {
    assert (s + [x])[..|s|] == s;
  }

  /** The selection is exactly the images of the kept positions: the kept
      positions are increasing, each carries its element's image, and every
      position whose element has an image is kept. */
  lemma {:induction false} FilterMapHits<A, B>(s: seq<A>, f: A -> Option<B>)
    ensures |Hits(s, f)| == |FilterMap(s, f)|
    ensures Increasing(Hits(s, f))
    ensures forall j :: 0 <= j < |Hits(s, f)| ==>
              Hits(s, f)[j] < |s| && f(s[Hits(s, f)[j]]) == Some(FilterMap(s, f)[j])
    ensures forall i :: 0 <= i < |s| && f(s[i]).Some? ==> i in Hits(s, f)
    decreases |s|
  {
    if s != [] {
      var init := s[..|s| - 1];
      FilterMapHits(init, f);
      forall i | 0 <= i < |init| ensures s[i] == init[i] {}
    }
  }

  /** Loop step over `s[i]`, stated on prefixes. */
  lemma FilterMapStep<A, B>(s: seq<A>, i: nat, f: A -> Option<B>)
    requires i < |s|
    ensures FilterMap(s[..i + 1], f) == FilterMap(s[..i], f) + (if f(s[i]).Some? then [f(s[i]).value] else [])
  {
    assert s[..i + 1] == s[..i] + [s[i]];
    FilterMapSnoc(s[..i], s[i], f);
  }

  /** An element without an image can be dropped from anywhere. */
  lemma {:induction false} FilterMapSkip<A, B>(a: seq<A>, x: A, b: seq<A>, f: A -> Option<B>)
    requires f(x).None?
    ensures FilterMap(a + [x] + b, f) == FilterMap(a + b, f)
    decreases |b|
  {
    if b == [] {
      assert a + [x] + b == a + [x];
      assert a + b == a;
      FilterMapSnoc(a, x, f);
    } else {
      var b' := b[..|b| - 1];
      var y := b[|b| - 1];
      FilterMapSkip(a, x, b', f);
      assert a + [x] + b == (a + [x] + b') + [y];
      assert a + b == (a + b') + [y];
      FilterMapSnoc(a + [x] + b', y, f);
      FilterMapSnoc(a + b', y, f);
    }
  }

  /** The concatenation of `f(x)` over the elements `x` of `s`, in order
      (what a loop that extends a log by each element's entries builds). */
  function FlatMap<A, B>(s: seq<A>, f: A -> seq<B>): seq<B>
    decreases |s|
  {
    if s == [] then [] else FlatMap(s[..|s| - 1], f) + f(s[|s| - 1])
  }

  lemma FlatMapSnoc<A, B>(s: seq<A>, x: A, f: A -> seq<B>)
    ensures FlatMap(s + [x], f) == FlatMap(s, f) + f(x)
  {
    assert (s + [x])[..|s|] == s;
  }

  lemma FlatMapStep<A, B>(s: seq<A>, i: nat, f: A -> seq<B>)
    requires i < |s|
    ensures FlatMap(s[..i + 1], f) == FlatMap(s[..i], f) + f(s[i])
  {
    assert s[..i + 1] == s[..i] + [s[i]];
    FlatMapSnoc(s[..i], s[i], f);
  }

  lemma TakeAll<A>(s: seq<A>)
    ensures s[..|s|] == s
  {
  }

  /** An element with no entries can be dropped from anywhere. */
  lemma {:induction false} FlatMapSkip<A, B>(a: seq<A>, x: A, b: seq<A>, f: A -> seq<B>)
    requires f(x) == []
    ensures FlatMap(a + [x] + b, f) == FlatMap(a + b, f)
    decreases |b|
  {
    if b == [] {
      assert a + [x] + b == a + [x];
      assert a + b == a;
      FlatMapSnoc(a, x, f);
    } else {
      var b' := b[..|b| - 1];
      var y := b[|b| - 1];
      FlatMapSkip(a, x, b', f);
      assert a + [x] + b == (a + [x] + b') + [y];
      assert a + b == (a + b') + [y];
      FlatMapSnoc(a + [x] + b', y, f);
      FlatMapSnoc(a + b', y, f);
    }
  }

  /** `xs` is obtained from `ys` by deleting elements. */
  predicate IsSubseq<T(==)>(xs: seq<T>, ys: seq<T>)
    decreases |ys|
  {
    if xs == [] then true
    else if ys == [] then false
    else (xs[|xs| - 1] == ys[|ys| - 1] && IsSubseq(xs[..|xs| - 1], ys[..|ys| - 1]))
         || IsSubseq(xs, ys[..|ys| - 1])
  }

  lemma {:induction false} IsSubseqLength<T>(xs: seq<T>, ys: seq<T>)
    requires IsSubseq(xs, ys)
    ensures |xs| <= |ys|
    decreases |ys|
  {
    if xs != [] {
      if xs[|xs| - 1] == ys[|ys| - 1] && IsSubseq(xs[..|xs| - 1], ys[..|ys| - 1]) {
        IsSubseqLength(xs[..|xs| - 1], ys[..|ys| - 1]);
      } else {
        IsSubseqLength(xs, ys[..|ys| - 1]);
      }
    }
  }

  lemma IsSubseqSnocBoth<T>(xs: seq<T>, ys: seq<T>, y: T)
    requires IsSubseq(xs, ys)
    ensures IsSubseq(xs + [y], ys + [y])
  {
    assert (xs + [y])[..|xs|] == xs;
    assert (ys + [y])[..|ys|] == ys;
  }

  lemma IsSubseqSnocRight<T>(xs: seq<T>, ys: seq<T>, y: T)
    requires IsSubseq(xs, ys)
    ensures IsSubseq(xs, ys + [y])
  {
    assert (ys + [y])[..|ys|] == ys;
  }

  lemma {:induction false} IsSubseqRefl<T>(xs: seq<T>)
    ensures IsSubseq(xs, xs)
    decreases |xs|
  {
    if xs != [] {
      IsSubseqRefl(xs[..|xs| - 1]);
    }
  }
}
