/**
  The batching rule shared by the stage builders: walk an ordered sequence,
  grow the current group one element at a time, and close it as soon as a
  stage-specific test `full` holds of it or the last element is reached.
*/
module Batching {

  /** Concatenation of groups: the inverse of cutting. */
  function Concat<T>(gs: seq<seq<T>>): (r: seq<T>)
  {
    if gs == [] then [] else gs[0] + Concat(gs[1..])
  }

  lemma {:induction false} ConcatAppend<T>(a: seq<seq<T>>, b: seq<seq<T>>)
    ensures Concat(a + b) == Concat(a) + Concat(b)
  {
    if a != [] {
      assert (a + b)[1..] == a[1..] + b;
      ConcatAppend(a[1..], b);
    } else {
      assert a + b == b;
    }
  }

  lemma ConcatSnoc<T>(gs: seq<seq<T>>, g: seq<T>)
    ensures Concat(gs + [g]) == Concat(gs) + g
  {
    ConcatAppend(gs, [g]);
    assert Concat([g]) == g + Concat([]);
  }

  lemma ConcatInit<T>(gs: seq<seq<T>>)
    requires gs != []
    ensures Concat(gs) == Concat(gs[..|gs| - 1]) + gs[|gs| - 1]
  {
    assert gs == gs[..|gs| - 1] + [gs[|gs| - 1]];
    ConcatSnoc(gs[..|gs| - 1], gs[|gs| - 1]);
  }

  /** Extending the last group extends the concatenation. */
  lemma ConcatExtend<T>(init: seq<seq<T>>, last: seq<T>, c: seq<T>)
    ensures Concat(init + [last + c]) == Concat(init + [last]) + c
  {
    ConcatSnoc(init, last + c);
    ConcatSnoc(init, last);
  }

  /** Length of the first group of `s`, scanning candidate lengths from `k` upwards. */
  function Cut<T>(s: seq<T>, full: seq<T> -> bool, k: nat): (r: nat)
    requires 1 <= k <= |s|
    ensures k <= r <= |s|
    decreases |s| - k
  {
    if k == |s| || full(s[..k]) then k else Cut(s, full, k + 1)
  }

  /** The groups the builders emit, in order: each the shortest prefix of the rest that is full, or the whole rest. */
  function Groups<T>(s: seq<T>, full: seq<T> -> bool): seq<seq<T>>
    decreases |s|
  {
    if |s| == 0 then [] else
      var k := Cut(s, full, 1);
      [s[..k]] + Groups(s[k..], full)
  }

  /** The group-size test "at least n elements", used by the fixed-size builders. */
  function AtLeast<T>(n: int): seq<T> -> bool {
    g => |g| >= n
  }

  lemma {:induction false} CutIsFirstFull<T>(s: seq<T>, full: seq<T> -> bool, k: nat)
    requires 1 <= k <= |s|
    ensures Cut(s, full, k) == |s| || full(s[..Cut(s, full, k)])
    ensures forall j :: k <= j < Cut(s, full, k) ==> !full(s[..j])
    decreases |s| - k
  {
    if !(k == |s| || full(s[..k])) {
      CutIsFirstFull(s, full, k + 1);
    }
  }

  lemma {:induction false} CutReaches<T>(s: seq<T>, full: seq<T> -> bool, j: nat, k: nat)
    requires 1 <= j <= k <= |s|
    requires forall i :: j <= i < k ==> !full(s[..i])
    requires k == |s| || full(s[..k])
    ensures Cut(s, full, j) == k
    decreases k - j
  {
    if j < k {
      CutReaches(s, full, j + 1, k);
    }
  }

  /** A group no proper nonempty prefix of which is full. */
  predicate Minimal<T>(g: seq<T>, full: seq<T> -> bool) {
    |g| > 0 && forall m {:trigger full(g[..m])} :: 0 < m < |g| ==> !full(g[..m])
  }

  /**
    A list of groups a batching pass could have closed: every group is
    minimal, and every group but the last is full.
  */
  predicate Cuts<T>(gs: seq<seq<T>>, full: seq<T> -> bool) {
    (forall i :: 0 <= i < |gs| ==> Minimal(gs[i], full))
    && (forall i :: 0 <= i < |gs| - 1 ==> full(gs[i]))
  }

  /** The group a batching loop holds open: empty, or minimal and not yet full. */
  predicate Open<T>(g: seq<T>, full: seq<T> -> bool) {
    g == [] || (Minimal(g, full) && !full(g))
  }

  /** Adding an element to an open group gives a minimal group. */
  lemma OpenSnoc<T>(g: seq<T>, a: T, full: seq<T> -> bool)
    requires Open(g, full)
    ensures Minimal(g + [a], full)
  {
    forall m | 0 < m < |g + [a]| ensures !full((g + [a])[..m]) {
      assert (g + [a])[..m] == g[..m];
      if m < |g| {
        assert !full(g[..m]);
      } else {
        assert g[..m] == g;
      }
    }
  }

  /** The open group `s[st..i]` extended by the next element. */
  lemma OpenStep<T>(s: seq<T>, full: seq<T> -> bool, st: nat, i: nat)
    requires st <= i < |s| && Open(s[st..i], full)
    ensures Minimal(s[st..i + 1], full)
  {
    OpenSnoc(s[st..i], s[i], full);
    assert s[st..i + 1] == s[st..i] + [s[i]];
  }

  /** The open group `g == s[st..i]` takes the next element and becomes minimal. */
  lemma OpenTake<T>(s: seq<T>, full: seq<T> -> bool, st: nat, i: nat, g: seq<T>)
    requires st <= i < |s| && g == s[st..i] && Open(g, full)
    ensures g + [s[i]] == s[st..i + 1] && Minimal(g + [s[i]], full)
  {
    OpenStep(s, full, st, i);
    assert s[st..i + 1] == s[st..i] + [s[i]];
  }

  /** A minimal group `s[st..i + 1]` that is not full stays open at the next index `i'`. */
  lemma OpenKeep<T>(s: seq<T>, full: seq<T> -> bool, st: nat, i: nat, i': nat, g: seq<T>)
    requires st <= i < |s| && g == s[st..i + 1] && Minimal(g, full) && !full(g) && i' == i + 1
    ensures g == s[st..i'] && Open(g, full)
  {
  }

  /** A nonempty group of at most `n` elements is minimal for "at least `n`". */
  lemma AtMostMinimal<T>(g: seq<T>, n: nat)
    requires 0 < |g| <= n
    ensures Minimal(g, AtLeast(n))
  {
  }

  /**
    The inner loop of `delete` and `move`: up to `n` leading elements of `s`
    are moved into a block, one `pop(0)` at a time.
  */
  method TakeBlock<T>(s: seq<T>, n: nat) returns (block: seq<T>, rest: seq<T>)
    ensures |block| == if |s| < n then |s| else n
    ensures block == s[..|block|] && rest == s[|block|..]
  {
    block, rest := [], s;
    while |block| < n && |rest| > 0
      invariant |block| <= n && block + rest == s
      decreases |rest|
    {
      block := block + [rest[0]];
      rest := rest[1..];
    }
    assert s[..|block|] == block && s[|block|..] == rest;
  }

  /** A group opened at `e` holds nothing yet. */
  lemma OpenEmpty<T>(s: seq<T>, full: seq<T> -> bool, e: nat)
    requires e <= |s|
    ensures s[e..e] == [] && Open(s[e..e], full)
  {
  }

  /** Any cut of a sequence into minimal groups, all full but the last, is its grouping. */
  lemma {:induction false} GroupsOfCuts<T>(gs: seq<seq<T>>, full: seq<T> -> bool)
    requires Cuts(gs, full)
    ensures Groups(Concat(gs), full) == gs
    decreases |gs|
  {
    if gs != [] {
      CutsThen(gs, full, []);
      assert Concat(gs) + [] == Concat(gs);
      assert gs + [] == gs;
    }
  }

  /** A minimal group, full unless nothing follows it, is the first group. */
  lemma FirstGroup<T>(g: seq<T>, rest: seq<T>, full: seq<T> -> bool)
    requires Minimal(g, full) && (rest != [] ==> full(g))
    ensures Groups(g + rest, full) == [g] + Groups(rest, full)
  {
    var s := g + rest;
    var k := |g|;
    forall i | 1 <= i < k ensures !full(s[..i]) {
      assert s[..i] == g[..i];
    }
    assert s[..k] == g;
    CutReaches(s, full, 1, k);
    assert s[k..] == rest;
  }

  /** Cutting at "at least `n`": the first group is the first block of `k` elements, `n` of them unless the input is shorter. */
  lemma FirstBlock<T>(s: seq<T>, n: nat, k: nat)
    requires 0 < k <= |s| && k <= n && (k < |s| ==> k == n)
    ensures Groups(s, AtLeast(n)) == [s[..k]] + Groups(s[k..], AtLeast(n))
  {
    AtMostMinimal(s[..k], n);
    assert s == s[..k] + s[k..];
    FirstGroup(s[..k], s[k..], AtLeast(n));
  }

  lemma CutsTail<T>(gs: seq<seq<T>>, full: seq<T> -> bool)
    requires Cuts(gs, full) && gs != []
    ensures Minimal(gs[0], full) && (|gs| > 1 ==> full(gs[0])) && Cuts(gs[1..], full)
  {
    assert forall i :: 0 <= i < |gs| - 1 ==> gs[1..][i] == gs[i + 1];
  }

  /**
    Closed groups ending in a full one are the first groups of anything the
    consumed prefix is extended by.
  */
  lemma {:induction false} CutsThen<T>(gs: seq<seq<T>>, full: seq<T> -> bool, t: seq<T>)
    requires Cuts(gs, full)
    requires gs != [] && (t != [] ==> full(gs[|gs| - 1]))
    ensures Groups(Concat(gs) + t, full) == gs + Groups(t, full)
    decreases |gs|
  {
    CutsTail(gs, full);
    if |gs| > 1 {
      CutsThen(gs[1..], full, t);
    }
    CutsThenStep(gs, full, t);
  }

  /** One group in front of groups already known to be the grouping of the rest. */
  lemma CutsThenStep<T>(gs: seq<seq<T>>, full: seq<T> -> bool, t: seq<T>)
    requires gs != [] && Minimal(gs[0], full)
    requires |gs| > 1 ==> full(gs[0]) && Groups(Concat(gs[1..]) + t, full) == gs[1..] + Groups(t, full)
    requires |gs| == 1 && t != [] ==> full(gs[0])
    ensures Groups(Concat(gs) + t, full) == gs + Groups(t, full)
  {
    var g, tail := gs[0], gs[1..];
    var rest := Concat(tail) + t;
    assert Concat(gs) + t == g + rest;
    FirstGroup(g, rest, full);
    assert gs == [g] + tail;
    if |gs| == 1 {
      assert tail == [];
      assert rest == t;
    }
  }

  /**
    The groups partition the sequence: they are nonempty, concatenate back to
    it, every group but the last is full, and no proper prefix of a group is.
  */
  lemma {:induction false} GroupsPartition<T>(s: seq<T>, full: seq<T> -> bool)
    ensures Concat(Groups(s, full)) == s
    ensures Groups(s, full) == [] <==> s == []
    ensures forall i :: 0 <= i < |Groups(s, full)| ==> |Groups(s, full)[i]| > 0
    ensures forall i :: 0 <= i < |Groups(s, full)| - 1 ==> full(Groups(s, full)[i])
    ensures forall i, m :: 0 <= i < |Groups(s, full)| && 0 < m < |Groups(s, full)[i]| ==> !full(Groups(s, full)[i][..m])
    decreases |s|
  {
    if |s| > 0 {
      var k := Cut(s, full, 1);
      CutIsFirstFull(s, full, 1);
      GroupsPartition(s[k..], full);
      var gs := Groups(s, full);
      assert gs[1..] == Groups(s[k..], full);
      assert s[..k] + s[k..] == s;
      if k < |s| {
        assert |Groups(s[k..], full)| > 0;
      }
      forall i, m | 0 <= i < |gs| && 0 < m < |gs[i]| ensures !full(gs[i][..m]) {
        if i == 0 {
          assert gs[0][..m] == s[..m];
        } else {
          assert gs[i] == Groups(s[k..], full)[i - 1];
        }
      }
    }
  }

  /** A property every element of the sequence has, every element of every group has. */
  lemma {:induction false} GroupsKeep<T>(s: seq<T>, full: seq<T> -> bool, p: T -> bool)
    requires forall k :: 0 <= k < |s| ==> p(s[k])
    ensures forall i, m :: 0 <= i < |Groups(s, full)| && 0 <= m < |Groups(s, full)[i]| ==> p(Groups(s, full)[i][m])
    decreases |s|
  {
    if |s| > 0 {
      var k := Cut(s, full, 1);
      GroupsKeep(s[k..], full, p);
      var gs := Groups(s, full);
      assert gs[1..] == Groups(s[k..], full);
      forall i, m | 0 <= i < |gs| && 0 <= m < |gs[i]| ensures p(gs[i][m]) {
        if i == 0 {
          assert gs[0][m] == s[m];
        } else {
          assert gs[i] == Groups(s[k..], full)[i - 1];
        }
      }
    }
  }

  /** Groups depend only on what `full` says about segments of the sequence. */
  lemma {:induction false} GroupsCongruent<T>(s: seq<T>, f1: seq<T> -> bool, f2: seq<T> -> bool)
    requires forall i, j :: 0 <= i < j <= |s| ==> f1(s[i..j]) == f2(s[i..j])
    ensures Groups(s, f1) == Groups(s, f2)
    decreases |s|
  {
    if |s| > 0 {
      var k := Cut(s, f1, 1);
      CutIsFirstFull(s, f1, 1);
      forall i | 1 <= i <= |s| ensures f1(s[..i]) == f2(s[..i]) {
        assert s[..i] == s[0..i];
      }
      CutReaches(s, f2, 1, k);
      forall i, j | 0 <= i < j <= |s[k..]| ensures f1(s[k..][i..j]) == f2(s[k..][i..j]) {
        assert s[k..][i..j] == s[k + i..k + j];
      }
      GroupsCongruent(s[k..], f1, f2);
    }
  }

  /** The sizes of the groups fixed-size batching yields for `m` elements: n, n, ..., then the remainder. */
  function ChunkSizes(m: nat, n: nat): seq<nat>
    requires n >= 1
    decreases m
  {
    if m == 0 then [] else if m <= n then [m] else [n] + ChunkSizes(m - n, n)
  }

  function Sizes<T>(gs: seq<seq<T>>): (r: seq<nat>)
    ensures |r| == |gs| && forall i :: 0 <= i < |gs| ==> r[i] == |gs[i]|
  {
    seq(|gs|, i requires 0 <= i < |gs| => |gs[i]|)
  }

  /** Fixed-size batching cuts `s` into blocks of `n`, the last holding the remaining 1..n elements. */
  lemma {:induction false} FixedChunks<T>(s: seq<T>, n: nat)
    requires n >= 1
    ensures Sizes(Groups(s, AtLeast(n))) == ChunkSizes(|s|, n)
    decreases |s|
  {
    if |s| > 0 {
      var k := if |s| <= n then |s| else n;
      forall i | 1 <= i < k ensures !AtLeast(n)(s[..i]) { }
      CutReaches(s, AtLeast(n), 1, k);
      FixedChunks(s[k..], n);
      var gs := Groups(s, AtLeast(n));
      assert gs == [s[..k]] + Groups(s[k..], AtLeast(n));
      assert Sizes(gs) == [k] + Sizes(Groups(s[k..], AtLeast(n)));
    }
  }

  /** Every block but the last has exactly n elements; the last has 1..n; there are ceil(m/n) of them. */
  lemma {:induction false} ChunkSizesShape(m: nat, n: nat)
    requires n >= 1
    ensures forall i :: 0 <= i < |ChunkSizes(m, n)| - 1 ==> ChunkSizes(m, n)[i] == n
    ensures m > 0 ==> 1 <= ChunkSizes(m, n)[|ChunkSizes(m, n)| - 1] <= n
    ensures (|ChunkSizes(m, n)| - 1) * n < m <= |ChunkSizes(m, n)| * n
    decreases m
  {
    if m > n {
      ChunkSizesShape(m - n, n);
      var r := ChunkSizes(m - n, n);
      assert ChunkSizes(m, n) == [n] + r;
      assert (|r| - 1) * n < m - n <= |r| * n;
      assert |ChunkSizes(m, n)| * n == |r| * n + n;
    }
  }
}
