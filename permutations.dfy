/**
 * An iterator over the arrangements of a list, driven by an explicit stack.
 * Each stack level holds the elements still to place and a counter naming
 * the one placed at that level; a full stack spells out one arrangement.
 * Arrangements come out in lexicographic order of the counters, and an
 * empty list has none.
 */
module Permutations {
  import opened Wrappers

  // ---------------------------------------------------------------------------
  // The arrangements, as a specification
  // ---------------------------------------------------------------------------

  /** The list without its element at `idx`. */
  function Remove<V>(s: seq<V>, idx: nat): (r: seq<V>)
    requires idx < |s|
    ensures |r| == |s| - 1
  {
    s[..idx] + s[idx + 1..]
  }

  /** Removing an element takes exactly that element out of the multiset. */
  lemma RemoveMultiset<V>(s: seq<V>, idx: nat)
    requires idx < |s|
    ensures multiset(Remove(s, idx)) + multiset{s[idx]} == multiset(s)
  {
    assert s == s[..idx] + [s[idx]] + s[idx + 1..];
  }

  /** Every list of `xs` with `p` in front. */
  function Prepend<V>(p: seq<V>, xs: seq<seq<V>>): (r: seq<seq<V>>)
    ensures |r| == |xs|
    ensures forall k :: 0 <= k < |xs| ==> r[k] == p + xs[k]
  {
    seq(|xs|, k requires 0 <= k < |xs| => p + xs[k])
  }

  /**
   * The arrangements of `s`, in lexicographic order of positions: first
   * those starting with `s[0]`, then those starting with `s[1]`, and so on.
   */
  function Perms<V>(s: seq<V>): seq<seq<V>>
    decreases |s|, 1, 0
  {
    if s == [] then [[]] else From(s, 0)
  }

  /**
   * What the iterator yields for `items`: the arrangements `Perms(items)`,
   * except that an empty list yields nothing at all, not its one empty
   * arrangement.
   */
  function Generated<V>(items: seq<V>): seq<seq<V>>
  {
    if items == [] then [] else Perms(items)
  }

  /** The arrangements of `s` whose first element is taken from position `c` or later. */
  function From<V>(s: seq<V>, c: nat): seq<seq<V>>
    decreases |s|, 0, |s| - c
  {
    if c >= |s| then []
    else Prepend([s[c]], Perms(Remove(s, c))) + From(s, c + 1)
  }

  function Fact(n: nat): (f: nat)
    ensures f >= 1
  {
    if n == 0 then 1 else n * Fact(n - 1)
  }

  predicate Distinct<T(==)>(xs: seq<T>)
  {
    forall i, j :: 0 <= i < j < |xs| ==> xs[i] != xs[j]
  }

  lemma PrependConcat<V>(p: seq<V>, xs: seq<seq<V>>, ys: seq<seq<V>>)
    ensures Prepend(p, xs + ys) == Prepend(p, xs) + Prepend(p, ys)
  {
    var l, r := Prepend(p, xs + ys), Prepend(p, xs) + Prepend(p, ys);
    forall k | 0 <= k < |l| ensures l[k] == r[k] {
      if k < |xs| {
        assert r[k] == Prepend(p, xs)[k];
      } else {
        assert r[k] == Prepend(p, ys)[k - |xs|];
      }
    }
  }

  lemma PrependEmpty<V>(xs: seq<seq<V>>)
    ensures Prepend([], xs) == xs
  {
    forall k | 0 <= k < |xs| ensures [] + xs[k] == xs[k] {
    }
  }

  lemma PrependPrepend<V>(p: seq<V>, q: seq<V>, xs: seq<seq<V>>)
    ensures Prepend(p, Prepend(q, xs)) == Prepend(p + q, xs)
  {
    var l, r := Prepend(p, Prepend(q, xs)), Prepend(p + q, xs);
    forall k | 0 <= k < |xs| ensures l[k] == r[k] {
      assert l[k] == p + (q + xs[k]);
      assert p + (q + xs[k]) == (p + q) + xs[k];
    }
  }

  /** Every arrangement has the length and the elements of the list it arranges. */
  lemma {:induction false} PermsArePermutations<V>(s: seq<V>)
    ensures forall p :: p in Perms(s) ==> |p| == |s| && multiset(p) == multiset(s)
    decreases |s|, 1, 0
  {
    if s != [] {
      FromArePermutations(s, 0);
    }
  }

  lemma {:induction false} FromArePermutations<V>(s: seq<V>, c: nat)
    ensures forall p :: p in From(s, c) ==> |p| == |s| && multiset(p) == multiset(s)
    decreases |s|, 0, |s| - c
  {
    if c < |s| {
      var r := Remove(s, c);
      RemoveMultiset(s, c);
      PermsArePermutations(r);
      FromArePermutations(s, c + 1);
      forall p | p in Prepend([s[c]], Perms(r))
        ensures |p| == |s| && multiset(p) == multiset(s)
      {
        var k :| 0 <= k < |Perms(r)| && p == [s[c]] + Perms(r)[k];
        assert Perms(r)[k] in Perms(r);
      }
    }
  }

  lemma MulSucc(a: nat, f: nat)
    ensures (a + 1) * f == f + a * f
  {
  }

  /** A list of n elements has n! arrangements. */
  lemma {:induction false} PermsCount<V>(s: seq<V>)
    ensures |Perms(s)| == Fact(|s|)
    decreases |s|, 1, 0
  {
    if s != [] {
      FromCount(s, 0);
    }
  }

  lemma {:induction false} FromCount<V>(s: seq<V>, c: nat)
    requires c <= |s| && |s| >= 1
    ensures |From(s, c)| == (|s| - c) * Fact(|s| - 1)
    decreases |s|, 0, |s| - c
  {
    if c < |s| {
      var f := Fact(|s| - 1);
      PermsCount(Remove(s, c));
      FromCount(s, c + 1);
      assert |From(s, c)| == f + (|s| - c - 1) * f;
      MulSucc(|s| - c - 1, f);
    }
  }

  /** Every rearrangement of the list is among its arrangements. */
  lemma {:induction false} PermsComplete<V>(s: seq<V>, p: seq<V>)
    requires |p| == |s| && multiset(p) == multiset(s)
    ensures p in Perms(s)
    decreases |s|, 1, 0
  {
    if s != [] {
      assert p[0] in multiset(s);
      var c :| 0 <= c < |s| && s[c] == p[0];
      FromComplete(s, 0, c, p);
    }
  }

  lemma {:induction false} FromComplete<V>(s: seq<V>, c: nat, c0: nat, p: seq<V>)
    requires c <= c0 < |s| && |p| == |s| && multiset(p) == multiset(s) && p[0] == s[c0]
    ensures p in From(s, c)
    decreases |s|, 0, |s| - c
  {
    if c < c0 {
      FromComplete(s, c + 1, c0, p);
    } else {
      var r := Remove(s, c);
      TailMultiset(s, c, p);
      PermsComplete(r, p[1..]);
      var k :| 0 <= k < |Perms(r)| && Perms(r)[k] == p[1..];
      assert Prepend([s[c]], Perms(r))[k] == p;
    }
  }

  /** Past its first element, a rearrangement starting with `s[c]` rearranges `s` without position `c`. */
  lemma TailMultiset<V>(s: seq<V>, c: nat, p: seq<V>)
    requires c < |s| && |p| == |s| && multiset(p) == multiset(s) && p[0] == s[c]
    ensures multiset(p[1..]) == multiset(Remove(s, c))
  {
    RemoveMultiset(s, c);
    assert p == [p[0]] + p[1..];
    var x := multiset{p[0]};
    assert multiset(p[1..]) + x == multiset(Remove(s, c)) + x;
    assert multiset(p[1..]) == multiset(p[1..]) + x - x;
    assert multiset(Remove(s, c)) == multiset(Remove(s, c)) + x - x;
  }

  /** No arrangement taken from position `c` on starts with an element absent from `s[c..]`. */
  lemma {:induction false} FromHeads<V>(s: seq<V>, c: nat, p: seq<V>)
    requires c <= |s| && |p| > 0 && p[0] !in s[c..]
    ensures p !in From(s, c)
    decreases |s| - c
  {
    if c < |s| {
      assert p[0] != s[c] && p[0] !in s[c + 1..];
      FromHeads(s, c + 1, p);
    }
  }

  lemma DistinctConcat<T>(xs: seq<T>, ys: seq<T>)
    requires Distinct(xs) && Distinct(ys)
    requires forall x :: x in xs ==> x !in ys
    ensures Distinct(xs + ys)
  {
    forall i, j | 0 <= i < j < |xs + ys| ensures (xs + ys)[i] != (xs + ys)[j] {
      if i < |xs| && j >= |xs| {
        assert (xs + ys)[i] in xs && (xs + ys)[j] == ys[j - |xs|];
      }
    }
  }

  /** When the elements are distinct, no arrangement is produced twice. */
  lemma {:induction false} PermsDistinct<V>(s: seq<V>)
    requires Distinct(s)
    ensures Distinct(Perms(s))
    decreases |s|, 1, 0
  {
    if s != [] {
      FromDistinct(s, 0);
    }
  }

  lemma {:induction false} FromDistinct<V>(s: seq<V>, c: nat)
    requires Distinct(s)
    ensures Distinct(From(s, c))
    decreases |s|, 0, |s| - c
  {
    if c < |s| {
      var r := Remove(s, c);
      assert Distinct(r) by {
        forall i, j | 0 <= i < j < |r| ensures r[i] != r[j] {
          var i', j' := if i < c then i else i + 1, if j < c then j else j + 1;
          assert r == s[..c] + s[c + 1..];
          assert r[i] == s[i'] && r[j] == s[j'] && i' < j';
        }
      }
      PermsDistinct(r);
      FromDistinct(s, c + 1);
      var head := Prepend([s[c]], Perms(r));
      assert Distinct(head) by {
        forall i, j | 0 <= i < j < |head| ensures head[i] != head[j] {
          assert head[i][1..] == Perms(r)[i] && head[j][1..] == Perms(r)[j];
        }
      }
      forall x | x in head ensures x !in From(s, c + 1) {
        assert x[0] == s[c];
        assert s[c] !in s[c + 1..];
        FromHeads(s, c + 1, x);
      }
      DistinctConcat(head, From(s, c + 1));
    }
  }

  lemma PrependPair<V>(p: seq<V>, x: seq<V>, y: seq<V>)
    ensures Prepend(p, [x]) == [p + x]
    ensures Prepend(p, [x, y]) == [p + x, p + y]
  {
  }

  lemma PermsOne<V>(a: V)
    ensures Perms([a]) == [[a]]
  {
    var r := Remove([a], 0);
    assert r == [];
    assert Perms(r) == [[]];
    PrependPair([a], [], []);
    assert [a] + [] == [a];
    assert From([a], 1) == [];
  }

  lemma PermsTwo<V>(a: V, b: V)
    ensures Perms([a, b]) == [[a, b], [b, a]]
  {
    var s := [a, b];
    assert Remove(s, 0) == [b] && Remove(s, 1) == [a];
    PermsOne(a);
    PermsOne(b);
    PrependPair([a], [b], []);
    PrependPair([b], [a], []);
    assert [a] + [b] == [a, b] && [b] + [a] == [b, a];
    assert From(s, 2) == [];
    assert From(s, 1) == [[b, a]] + [];
    assert From(s, 0) == [[a, b]] + [[b, a]];
  }

  /** The arrangements taken from position `c` on of a list of three. */
  lemma FromThree<V>(s: seq<V>, c: nat)
    requires |s| == 3 && c < 3
    ensures From(s, c) == Prepend([s[c]], Perms(Remove(s, c))) + From(s, c + 1)
  {
  }

  lemma FromThreeLast<V>(a: V, b: V, c: V)
    ensures From([a, b, c], 2) == [[c, a, b], [c, b, a]]
  {
    var s := [a, b, c];
    assert Remove(s, 2) == [a, b];
    PermsTwo(a, b);
    PrependPair([c], [a, b], [b, a]);
    assert [c] + [a, b] == [c, a, b] && [c] + [b, a] == [c, b, a];
    FromThree(s, 2);
    assert From(s, 3) == [];
  }

  lemma FromThreeMiddle<V>(a: V, b: V, c: V)
    ensures From([a, b, c], 1) == [[b, a, c], [b, c, a], [c, a, b], [c, b, a]]
  {
    var s := [a, b, c];
    assert Remove(s, 1) == [a, c];
    PermsTwo(a, c);
    PrependPair([b], [a, c], [c, a]);
    assert [b] + [a, c] == [b, a, c] && [b] + [c, a] == [b, c, a];
    FromThree(s, 1);
    FromThreeLast(a, b, c);
  }

  lemma PermsThree<V>(a: V, b: V, c: V)
    ensures Perms([a, b, c]) == [[a, b, c], [a, c, b], [b, a, c], [b, c, a], [c, a, b], [c, b, a]]
  {
    var s := [a, b, c];
    assert Remove(s, 0) == [b, c];
    PermsTwo(b, c);
    PrependPair([a], [b, c], [c, b]);
    assert [a] + [b, c] == [a, b, c] && [a] + [c, b] == [a, c, b];
    FromThree(s, 0);
    FromThreeMiddle(a, b, c);
  }

  /** The three elements 0, 1, 2 have exactly these six arrangements, in this order. */
  lemma ThreeExample()
    ensures Perms([0, 1, 2]) == [[0, 1, 2], [0, 2, 1], [1, 0, 2], [1, 2, 0], [2, 0, 1], [2, 1, 0]]
  {
    PermsThree(0, 1, 2);
  }

  // ---------------------------------------------------------------------------
  // The stack and what it still has to produce
  // ---------------------------------------------------------------------------

  /** One stack level: the elements left to place and the position of the one placed here. */
  datatype Frame<V> = Frame(items: seq<V>, current: nat)

  /** The element each level places, skipping a level whose counter has run past its list. */
  function Chosen<V>(stack: seq<Frame<V>>): (r: seq<V>)
    ensures |r| <= |stack|
  {
    if stack == [] then []
    else
      var top := stack[|stack| - 1];
      Chosen(stack[..|stack| - 1]) + if top.current < |top.items| then [top.items[top.current]] else []
  }

  /** The stack with the top level's counter moved on by one. */
  function Bump<V>(stack: seq<Frame<V>>): (r: seq<Frame<V>>)
    ensures |r| == |stack|
  {
    if stack == [] then []
    else
      var top := stack[|stack| - 1];
      stack[..|stack| - 1] + [Frame(top.items, top.current + 1)]
  }

  /**
   * The arrangements a stack has still to produce: those the top level
   * reaches from its counter on, then those each lower level reaches
   * from past its counter.
   */
  function Pending<V>(stack: seq<Frame<V>>): seq<seq<V>>
    decreases |stack|
  {
    if stack == [] then []
    else
      var top, below := stack[|stack| - 1], stack[..|stack| - 1];
      Prepend(Chosen(below), From(top.items, top.current)) + Pending(Bump(below))
  }

  /**
   * A stack for arrangements of length `len`: level j holds `len - j`
   * elements, so there are at most `len` levels unless `len` is 0; each
   * level below the top has chosen an element within its list, and the
   * top's counter has run at most one past its list.
   */
  ghost predicate WellFormed<V>(stack: seq<Frame<V>>, len: nat)
  {
    && (forall j :: 0 <= j < |stack| ==> Sized(stack, j, len))
    && (len > 0 ==> |stack| <= len)
    && (forall j :: 0 <= j < |stack| - 1 ==> Placed(stack, j))
    && (stack != [] ==> stack[|stack| - 1].current <= |stack[|stack| - 1].items|)
  }

  /** Level `j` holds `len - j` elements. */
  ghost predicate Sized<V>(stack: seq<Frame<V>>, j: nat, len: nat)
    requires j < |stack|
  {
    |stack[j].items| + j == len
  }

  /** Level `j` has chosen an element within its list. */
  ghost predicate Placed<V>(stack: seq<Frame<V>>, j: nat)
    requires j < |stack|
  {
    stack[j].current < |stack[j].items|
  }

  /** A stack of one level produces what that level reaches from its counter on. */
  lemma PendingSingle<V>(f: Frame<V>)
    ensures Pending([f]) == From(f.items, f.current)
  {
    assert [f][..0] == [];
    assert Bump<V>([]) == [] && Chosen<V>([]) == [];
    PrependEmpty(From(f.items, f.current));
  }

  /** The top level's counter has run past its list. */
  predicate Exhausted<V>(stack: seq<Frame<V>>)
  {
    stack != [] && stack[|stack| - 1].current >= |stack[|stack| - 1].items|
  }

  /**
   * Work left before the stack is full or empty: levels still to open
   * above a live top, or, above an exhausted top, enough to cover the
   * levels to pop before opening again.
   */
  function Unsettled<V>(stack: seq<Frame<V>>, len: nat): nat
    requires WellFormed(stack, len)
  {
    if stack == [] then 0
    else if Exhausted(stack) then len + 1 + |stack|
    else assert Sized(stack, |stack| - 1, len); len - |stack|
  }

  /**
   * One move of the settling loop: drop an exhausted top and move the level
   * below on, or open a level for the live top's chosen element while the
   * stack is not full.
   */
  ghost predicate Move<V>(s: seq<Frame<V>>, t: seq<Frame<V>>, len: nat)
  {
    || (Exhausted(s) && t == Bump(s[..|s| - 1]))
    || (s != [] && !Exhausted(s) && |s| < len &&
        t == s + [Frame(Remove(s[|s| - 1].items, s[|s| - 1].current), 0)])
  }

  /** Either kind of move keeps the stack well formed; opening a level leaves a live top. */
  lemma MoveWellFormed<V>(s: seq<Frame<V>>, t: seq<Frame<V>>, len: nat)
    requires WellFormed(s, len) && Move(s, t, len)
    ensures WellFormed(t, len)
    ensures !Exhausted(s) ==> !Exhausted(t) && |t| == |s| + 1
  {
    if Exhausted(s) {
      forall j | 0 <= j < |t| ensures Sized(t, j, len) {
        assert Sized(s, j, len);
      }
      forall j | 0 <= j < |t| - 1 ensures Placed(t, j) {
        assert Placed(s, j);
      }
      if t != [] {
        assert Placed(s, |t| - 1);
      }
    } else {
      assert Sized(s, |s| - 1, len);
      forall j | 0 <= j < |t| ensures Sized(t, j, len) {
        if j < |s| {
          assert Sized(s, j, len);
        }
      }
      forall j | 0 <= j < |t| - 1 ensures Placed(t, j) {
        if j < |s| - 1 {
          assert Placed(s, j);
        }
      }
    }
  }

  /** Dropping an exhausted top and moving the level below on keeps what is pending. */
  lemma PopPending<V>(stack: seq<Frame<V>>)
    requires Exhausted(stack)
    ensures Pending(Bump(stack[..|stack| - 1])) == Pending(stack)
  {
    var top := stack[|stack| - 1];
    assert From(top.items, top.current) == [];
  }

  /** Opening a level for the top's chosen element keeps what is pending. */
  lemma {:induction false} PushPending<V>(stack: seq<Frame<V>>, r: seq<V>)
    requires stack != [] && stack[|stack| - 1].current < |stack[|stack| - 1].items|
    requires r == Remove(stack[|stack| - 1].items, stack[|stack| - 1].current) && r != []
    ensures Pending(stack + [Frame(r, 0)]) == Pending(stack)
  {
    var top, below := stack[|stack| - 1], stack[..|stack| - 1];
    var x := top.items[top.current];
    var pushed := stack + [Frame(r, 0)];
    assert pushed[..|pushed| - 1] == stack;
    assert Bump(stack) == below + [Frame(top.items, top.current + 1)];
    assert Bump(stack)[..|stack| - 1] == below;
    assert Chosen(stack) == Chosen(below) + [x];
    assert Perms(r) == From(r, 0);
    assert From(top.items, top.current) == Prepend([x], Perms(r)) + From(top.items, top.current + 1);
    calc {
      Pending(pushed);
      Prepend(Chosen(stack), From(r, 0)) + Pending(Bump(stack));
      Prepend(Chosen(below) + [x], Perms(r)) + (Prepend(Chosen(below), From(top.items, top.current + 1)) + Pending(Bump(below)));
      { PrependPrepend(Chosen(below), [x], Perms(r)); }
      Prepend(Chosen(below), Prepend([x], Perms(r)))
        + Prepend(Chosen(below), From(top.items, top.current + 1)) + Pending(Bump(below));
      { PrependConcat(Chosen(below), Prepend([x], Perms(r)), From(top.items, top.current + 1)); }
      Prepend(Chosen(below), From(top.items, top.current)) + Pending(Bump(below));
      Pending(stack);
    }
  }

  /** Neither kind of move changes what is pending. */
  lemma MovePending<V>(s: seq<Frame<V>>, t: seq<Frame<V>>, len: nat)
    requires WellFormed(s, len) && Move(s, t, len)
    ensures Pending(t) == Pending(s)
  {
    if Exhausted(s) {
      PopPending(s);
    } else {
      assert Sized(s, |s| - 1, len);
      PushPending(s, t[|t| - 1].items);
    }
  }

  /** A level with a single element yields that element once, then nothing. */
  lemma LastLevel<V>(items: seq<V>)
    requires |items| == 1
    ensures From(items, 0) == [[items[0]]] && From(items, 1) == []
  {
    var x := items[0];
    assert Remove(items, 0) == [];
    assert Perms<V>([]) == [[]];
    assert [x] + [] == [x];
    assert Prepend([x], [[]]) == [[x]];
  }

  /**
   * A full stack whose top has an element to place produces the chosen
   * elements next, and moving the top on leaves the rest pending.
   */
  lemma YieldPending<V>(stack: seq<Frame<V>>, len: nat)
    requires WellFormed(stack, len) && stack != [] && |stack| == len
    requires stack[|stack| - 1].current < |stack[|stack| - 1].items|
    ensures WellFormed(Bump(stack), len)
    ensures Pending(stack) != [] && Pending(stack)[0] == Chosen(stack)
    ensures Pending(Bump(stack)) == Pending(stack)[1..]
  {
    var top, below := stack[|stack| - 1], stack[..|stack| - 1];
    var x := top.items[0];
    assert Sized(stack, |stack| - 1, len);
    assert |top.items| == 1 && top.current == 0;
    LastLevel(top.items);
    var rest := Pending(Bump(below));
    assert Pending(stack) == Prepend(Chosen(below), [[x]]) + rest;
    assert Prepend(Chosen(below), [[x]]) == [Chosen(below) + [x]];
    assert Bump(stack)[..|stack| - 1] == below;
    assert Pending(Bump(stack)) == Prepend(Chosen(below), []) + rest;
    assert Prepend<V>(Chosen(below), []) == [];
    assert Chosen(stack) == Chosen(below) + [x];
    forall j | 0 <= j < |stack| ensures Sized(Bump(stack), j, len) {
      assert Sized(stack, j, len);
    }
    forall j | 0 <= j < |stack| - 1 ensures Placed(Bump(stack), j) {
      assert Placed(stack, j);
    }
  }

  // ---------------------------------------------------------------------------
  // The iterator
  // ---------------------------------------------------------------------------

  class UniquePermutations<V> {
    var stack: seq<Frame<V>>
    var len: nat
    /** What the iterator has still to produce, in order. */
    ghost var remaining: seq<seq<V>>

    ghost predicate Valid()
      reads this
    {
      WellFormed(stack, len) && Pending(stack) == remaining
    }

    /**
     * An iterator over the arrangements of `items`, whose length it takes as
     * the length of each arrangement: one level with the whole list and its
     * counter at 0.
     */
    constructor (items: seq<V>)
      ensures Valid() && len == |items| && stack == [Frame(items, 0)]
      ensures remaining == Generated(items)
    {
      stack := [Frame(items, 0)];
      len := |items|;
      remaining := Generated(items);
      new;
      PendingSingle(Frame(items, 0));
    }

    /** The level to open above the top: the top's list without its chosen element. */
    function NextStackItem(): (r: Option<Frame<V>>)
      reads this
      ensures r.Some? <==> stack != [] && stack[|stack| - 1].current < |stack[|stack| - 1].items|
      ensures r.Some? ==> var top := stack[|stack| - 1];
        r.value == Frame(Remove(top.items, top.current), 0)
    {
      if stack == [] then None
      else
        var top := stack[|stack| - 1];
        if top.current >= |top.items| then None
        else
          Some(Frame(Remove(top.items, top.current), 0))
    }

    /** Drops the exhausted top level and moves the level below on to its next element. */
    method PopLevel()
      requires WellFormed(stack, len) && Exhausted(stack)
      modifies this
      ensures WellFormed(stack, len) && len == old(len) && remaining == old(remaining)
      ensures |stack| + 1 == |old(stack)|
      ensures Move(old(stack), stack, len)
    {
      MoveWellFormed(stack, Bump(stack[..|stack| - 1]), len);
      stack := Bump(stack[..|stack| - 1]);
    }

    /**
     * One turn of the settling loop: pop an exhausted top, then stop if the
     * stack is empty or full, and otherwise open a level or pop again. The
     * ghost result is the stack between the two moves.
     */
    method Settle() returns (done: bool, ghost mid: seq<Frame<V>>)
      requires WellFormed(stack, len)
      modifies this
      ensures WellFormed(stack, len) && len == old(len) && remaining == old(remaining)
      ensures mid == old(stack) || Move(old(stack), mid, len)
      ensures WellFormed(mid, len) && (stack == mid || Move(mid, stack, len))
      ensures done ==> stack == [] || (|stack| == len && !Exhausted(stack))
      ensures !done ==> Unsettled(stack, len) < old(Unsettled(stack, len))
    {
      mid := stack;
      if Exhausted(stack) {
        PopLevel();
        mid := stack;
      }
      if stack == [] || |stack| == len {
        return true, mid;
      }
      var next := NextStackItem();
      match next {
        case None =>
          PopLevel();
        case Some(frame) =>
          assert Sized(stack, |stack| - 1, len);
          MoveWellFormed(stack, stack + [frame], len);
          stack := stack + [frame];
      }
      done := false;
    }

    /**
     * Pops exhausted levels and opens new ones until the stack is empty or
     * full; what remains to be produced does not change.
     */
    method GenerateNextStack()
      requires Valid()
      modifies this
      ensures Valid() && len == old(len) && remaining == old(remaining)
      ensures stack == [] || (|stack| == len && !Exhausted(stack))
    {
      ghost var goal := remaining;
      while true
        invariant WellFormed(stack, len) && len == old(len) && remaining == goal
        invariant Pending(stack) == goal
        decreases Unsettled(stack, len)
      {
        ghost var before := stack;
        var done, mid := Settle();
        assert Pending(stack) == goal by {
          if mid != before {
            MovePending(before, mid, len);
          }
          if stack != mid {
            MovePending(mid, stack, len);
          }
        }
        if done {
          return;
        }
      }
    }

    /** The next arrangement, or None once there are no more. */
    method Next() returns (r: Option<seq<V>>)
      requires Valid()
      modifies this
      ensures Valid() && len == old(len)
      ensures old(remaining) == [] ==> r == None && remaining == []
      ensures old(remaining) != [] ==> r == Some(old(remaining)[0]) && remaining == old(remaining)[1..]
    {
      GenerateNextStack();
      if stack == [] {
        return None;
      }
      assert remaining != [] && Chosen(stack) == remaining[0] &&
        WellFormed(Bump(stack), len) && Pending(Bump(stack)) == remaining[1..] by {
        YieldPending(stack, len);
      }
      var item := Chosen(stack);
      stack := Bump(stack);
      remaining := remaining[1..];
      r := Some(item);
    }
  }

  /**
   * Draws arrangements from `it` until it is spent: everything it had still
   * to produce, in order.
   */
  method Drain<V>(it: UniquePermutations<V>) returns (all: seq<seq<V>>)
    requires it.Valid()
    modifies it
    ensures all == old(it.remaining) && it.remaining == []
  {
    all := [];
    while true
      invariant it.Valid() && all + it.remaining == old(it.remaining)
      decreases |it.remaining|
    {
      ghost var rest := it.remaining;
      var r := it.Next();
      if r.None? {
        return;
      }
      assert rest == [r.value] + it.remaining;
      all := all + [r.value];
    }
  }

  /**
   * Every arrangement of a non-empty list, in order, drawn from a fresh
   * iterator; nothing for an empty one.
   */
  method Collect<V>(items: seq<V>) returns (all: seq<seq<V>>)
    ensures all == Generated(items)
  {
    var it := new UniquePermutations(items);
    all := Drain(it);
  }
}
