/**
 * Sequence vocabulary for the per-tick bookkeeping of the generation loop:
 * which entries a pass over a list drops, what is left, and what the
 * "pop inside enumerate" idiom of the source actually retires.
 */
module Lists {

  /** No element occurs twice. */
  predicate Distinct<T(==)>(s: seq<T>)
  {
    forall i, j :: 0 <= i < j < |s| ==> s[i] != s[j]
  }

  /** The elements of `xs` whose flag in `dropped` is false, in their order. */
  function Keep<T>(xs: seq<T>, dropped: seq<bool>): (r: seq<T>)
    requires |dropped| == |xs|
    ensures |r| <= |xs|
    decreases |xs|
  {
    if xs == [] then []
    else
      var n := |xs| - 1;
      Keep(xs[..n], dropped[..n]) + (if dropped[n] then [] else [xs[n]])
  }

  /**
   * The entries retired by a forward pass that pops entry `x` from the list
   * it is enumerating whenever `cond` holds of it. After a pop the entry that
   * slides into slot `x` is never looked at, so an entry is retired exactly
   * when its condition holds and its predecessor was not retired.
   */
  function Retirement(cond: seq<bool>): (r: seq<bool>)
    ensures |r| == |cond|
    decreases |cond|
  {
    if cond == [] then []
    else
      var n := |cond| - 1;
      var before := Retirement(cond[..n]);
      before + [cond[n] && (n == 0 || !before[n - 1])]
  }

  /** Entry `j` is looked at by the pass whose retirements are `r`. */
  predicate Visited(r: seq<bool>, j: int)
    requires 0 <= j < |r|
  {
    j == 0 || !r[j - 1]
  }

  lemma {:induction false} KeepSnoc<T>(xs: seq<T>, d: seq<bool>, o: nat)
    requires |d| == |xs| && o < |xs|
    ensures Keep(xs[..o + 1], d[..o + 1]) == Keep(xs[..o], d[..o]) + (if d[o] then [] else [xs[o]])
  {
    assert xs[..o + 1][..o] == xs[..o];
    assert d[..o + 1][..o] == d[..o];
  }

  lemma {:induction false} RetirementPrefix(cond: seq<bool>, o: nat)
    requires o <= |cond|
    ensures Retirement(cond)[..o] == Retirement(cond[..o])
    decreases |cond|
  {
    if o < |cond| {
      var n := |cond| - 1;
      RetirementPrefix(cond[..n], o);
      assert cond[..n][..o] == cond[..o];
    } else {
      assert cond[..o] == cond;
    }
  }

  /** The closed form of Retirement: both directions of the skip rule. */
  lemma {:induction false} RetirementAt(cond: seq<bool>, j: nat)
    requires j < |cond|
    ensures Retirement(cond)[j] <==> cond[j] && (j == 0 || !Retirement(cond)[j - 1])
  {
    RetirementPrefix(cond, j + 1);
    assert cond[..j + 1][..j] == cond[..j];
    if j > 0 {
      RetirementPrefix(cond, j);
      assert Retirement(cond)[..j][j - 1] == Retirement(cond)[j - 1];
    }
  }

  /** Only entries meeting the condition are retired. */
  lemma RetirementSound(cond: seq<bool>, j: nat)
    requires j < |cond| && Retirement(cond)[j]
    ensures cond[j]
  {
    RetirementAt(cond, j);
  }

  /** The entry right after a retired one always survives the pass. */
  lemma RetirementSkipsSuccessor(cond: seq<bool>, j: nat)
    requires j + 1 < |cond| && Retirement(cond)[j]
    ensures !Retirement(cond)[j + 1]
  {
    RetirementAt(cond, j + 1);
  }

  /** An entry that meets the condition and whose predecessor does not is retired. */
  lemma RetirementCatchesIsolated(cond: seq<bool>, j: nat)
    requires j < |cond| && cond[j] && (j == 0 || !cond[j - 1])
    ensures Retirement(cond)[j]
  {
    RetirementAt(cond, j);
    if j > 0 {
      RetirementAt(cond, j - 1);
    }
  }

  /**
   * Two consecutive entries that both meet the condition, the first of them
   * looked at by the pass: only the first goes.
   */
  lemma RetirementMissesSecondOfPair(cond: seq<bool>, j: nat)
    requires j + 1 < |cond| && cond[j] && cond[j + 1] && Visited(Retirement(cond), j)
    ensures Retirement(cond)[j] && !Retirement(cond)[j + 1]
  {
    RetirementAt(cond, j);
    RetirementAt(cond, j + 1);
  }

  /**
   * When every entry meets the condition, the pass retires every other entry,
   * starting with the first.
   */
  lemma {:induction false} RetirementAlternates(cond: seq<bool>)
    requires forall j :: 0 <= j < |cond| ==> cond[j]
    ensures forall j :: 0 <= j < |cond| ==> Retirement(cond)[j] == (j % 2 == 0)
    decreases |cond|
  {
    if cond != [] {
      var n := |cond| - 1;
      RetirementAlternates(cond[..n]);
    }
  }

  /** Of a list whose entries all meet the condition, that pass leaves half, rounded down. */
  lemma {:induction false} RetirementHalves<T>(xs: seq<T>, cond: seq<bool>)
    requires |cond| == |xs| && forall j :: 0 <= j < |cond| ==> cond[j]
    ensures |Keep(xs, Retirement(cond))| == |xs| / 2
    decreases |xs|
  {
    if xs != [] {
      var n := |xs| - 1;
      var r := Retirement(cond);
      RetirementHalves(xs[..n], cond[..n]);
      RetirementPrefix(cond, n);
      RetirementAlternates(cond);
      assert Keep(xs, r) == Keep(xs[..n], r[..n]) + (if r[n] then [] else [xs[n]]);
    }
  }

  lemma {:induction false} KeepLast<T>(xs: seq<T>, d: seq<bool>)
    requires |d| == |xs| && |xs| > 0 && !d[|xs| - 1]
    ensures |Keep(xs, d)| > 0 && Keep(xs, d)[|Keep(xs, d)| - 1] == xs[|xs| - 1]
  {
  }

  lemma {:induction false} KeepMembers<T>(xs: seq<T>, d: seq<bool>)
    requires |d| == |xs|
    ensures forall x :: x in Keep(xs, d) ==> x in xs
    decreases |xs|
  {
    if xs != [] {
      var n := |xs| - 1;
      KeepMembers(xs[..n], d[..n]);
      assert forall x :: x in xs[..n] ==> x in xs;
    }
  }

  /** A kept entry whose flag is false stays in the list. */
  lemma {:induction false} KeepRetains<T>(xs: seq<T>, d: seq<bool>, j: nat)
    requires |d| == |xs| && j < |xs| && !d[j]
    ensures xs[j] in Keep(xs, d)
    decreases |xs|
  {
    var n := |xs| - 1;
    if j < n {
      KeepRetains(xs[..n], d[..n], j);
    }
  }

  /** Every entry of the kept list is an entry of `xs` whose flag is false. */
  lemma {:induction false} KeepFrom<T>(xs: seq<T>, d: seq<bool>, v: T)
    requires |d| == |xs| && v in Keep(xs, d)
    ensures exists j :: 0 <= j < |xs| && !d[j] && xs[j] == v
    decreases |xs|
  {
    var n := |xs| - 1;
    if v in Keep(xs[..n], d[..n]) {
      KeepFrom(xs[..n], d[..n], v);
      var j :| 0 <= j < n && !d[..n][j] && xs[..n][j] == v;
      assert !d[j] && xs[j] == v;
    } else {
      assert !d[n] && xs[n] == v;
    }
  }

  lemma {:induction false} KeepDistinct<T>(xs: seq<T>, d: seq<bool>)
    requires |d| == |xs| && Distinct(xs)
    ensures Distinct(Keep(xs, d))
    decreases |xs|
  {
    if xs != [] {
      var n := |xs| - 1;
      KeepDistinct(xs[..n], d[..n]);
      KeepMembers(xs[..n], d[..n]);
      assert xs[n] !in xs[..n];
    }
  }

  lemma {:induction false} KeepSameLength<T, U>(xs: seq<T>, ys: seq<U>, d: seq<bool>)
    requires |d| == |xs| == |ys|
    ensures |Keep(xs, d)| == |Keep(ys, d)|
    decreases |xs|
  {
    if xs != [] {
      var n := |xs| - 1;
      KeepSameLength(xs[..n], ys[..n], d[..n]);
    }
  }

  /**
   * The entries of `states` kept alongside the distinct keys `keys` are the
   * ones each kept key had before the pass: two parallel lists cut by the same
   * flags stay in step.
   */
  lemma {:induction false} KeepInStep<T, K>(states: seq<T>, keys: seq<K>, d: seq<bool>)
    requires |d| == |states| == |keys| && Distinct(keys)
    ensures |Keep(states, d)| == |Keep(keys, d)|
    ensures InStep(Keep(states, d), Keep(keys, d), states, keys)
    decreases |keys|
  {
    KeepSameLength(states, keys, d);
    if keys != [] {
      var n := |keys| - 1;
      var ks, ss := Keep(keys[..n], d[..n]), Keep(states[..n], d[..n]);
      KeepInStep(states[..n], keys[..n], d[..n]);
      KeepMembers(keys[..n], d[..n]);
      var ks', ss' := Keep(keys, d), Keep(states, d);
      forall i, j | 0 <= i < |ks'| && 0 <= j < |keys| && ks'[i] == keys[j]
        ensures ss'[i] == states[j]
      {
        if i < |ks| {
          assert ks'[i] == ks[i] && ss'[i] == ss[i];
          assert ks[i] in keys[..n];
          if j == n {
            assert false;
          }
          assert keys[..n][j] == keys[j];
        } else {
          assert ks'[i] == keys[n];
        }
      }
    }
  }

  /**
   * `states'` (keyed by `keys'`) holds, for every key it shares with `keys`,
   * the entry `states` holds for that key.
   */
  ghost predicate InStep<T, K>(states': seq<T>, keys': seq<K>, states: seq<T>, keys: seq<K>)
    requires |states'| == |keys'| && |states| == |keys|
  {
    forall i, j :: 0 <= i < |keys'| && 0 <= j < |keys| && keys'[i] == keys[j] ==> states'[i] == states[j]
  }

  lemma InStepTrans<T, K>(s3: seq<T>, k3: seq<K>, s2: seq<T>, k2: seq<K>, s1: seq<T>, k1: seq<K>)
    requires |s3| == |k3| && |s2| == |k2| && |s1| == |k1|
    requires InStep(s3, k3, s2, k2) && InStep(s2, k2, s1, k1)
    requires forall k :: k in k3 ==> k in k2
    ensures InStep(s3, k3, s1, k1)
  {
    forall i, j | 0 <= i < |k3| && 0 <= j < |k1| && k3[i] == k1[j]
      ensures s3[i] == s1[j]
    {
      assert k3[i] in k2;
      var m :| 0 <= m < |k2| && k2[m] == k3[i];
    }
  }

  /** Removing slot `x` from a list of distinct keys removes exactly that key. */
  lemma PopMembers<T>(s: seq<T>, x: nat)
    requires x < |s| && Distinct(s)
    ensures Distinct(s[..x] + s[x + 1..])
    ensures forall v :: v in s[..x] + s[x + 1..] <==> v in s && v != s[x]
  {
    var t := s[..x] + s[x + 1..];
    assert forall i :: 0 <= i < |t| ==> t[i] == s[if i < x then i else i + 1];
    forall v | v in s && v != s[x] ensures v in t {
      var i :| 0 <= i < |s| && s[i] == v;
      assert t[if i < x then i else i - 1] == v;
    }
  }

  function Last<T>(s: seq<T>): T
    requires |s| > 0
  {
    s[|s| - 1]
  }

  /**
   * The original index the pass looks at after looking at `o`: the next one,
   * or the one after it when `o` was popped and its successor slid into its slot.
   */
  function NextVisit(r: seq<bool>, o: nat): nat
    requires o < |r|
  {
    if r[o] && o + 1 < |r| then o + 2 else o + 1
  }

  /**
   * Where a pop-inside-enumerate pass stands: original entries before `o` are
   * decided (the kept ones are in front), the rest are untouched, and the
   * slot counter `x` is at entry `o`, or one past the end after popping the
   * last entry.
   */
  ghost predicate PassAt<T>(cur: seq<T>, orig: seq<T>, r: seq<bool>, o: nat, x: nat)
    requires |r| == |orig|
  {
    && o <= |orig|
    && cur == Keep(orig[..o], r[..o]) + orig[o..]
    && (x == |Keep(orig[..o], r[..o])| || (o == |orig| && x == |cur| + 1))
  }

  /** `cur` with slot `x` popped when `pop` holds. */
  function PopIf<T>(cur: seq<T>, x: nat, pop: bool): (r: seq<T>)
    requires x < |cur|
    ensures |r| == if pop then |cur| - 1 else |cur|
  {
    if pop then cur[..x] + cur[x + 1..] else cur
  }

  /**
   * One step of the pop-inside-enumerate pass, seen against the original list:
   * the slot `x` holds original entry `o`; it is popped exactly when its
   * condition holds, and afterwards the pass stands at the next visited entry.
   */
  lemma {:induction false} PopStep<T>(cur: seq<T>, orig: seq<T>, cond: seq<bool>, o: nat, x: nat)
    requires |cond| == |orig| && o < |orig| && x < |cur|
    requires PassAt(cur, orig, Retirement(cond), o, x)
    requires o == 0 || !Retirement(cond)[o - 1]
    ensures cur[x] == orig[o]
    ensures Retirement(cond)[o] == cond[o]
    ensures PassAt(PopIf(cur, x, cond[o]), orig, Retirement(cond), NextVisit(Retirement(cond), o), x + 1)
    ensures var r := Retirement(cond); var o' := NextVisit(r, o);
      0 < o' < |orig| ==> !r[o' - 1]
  {
    var r := Retirement(cond);
    assert orig[o..] == [orig[o]] + orig[o + 1..];
    RetirementAt(cond, o);
    KeepSnoc(orig, r, o);
    if r[o] {
      PopStepPopped(cur, orig, cond, o, x);
    }
  }

  lemma PopStepPopped<T>(cur: seq<T>, orig: seq<T>, cond: seq<bool>, o: nat, x: nat)
    requires |cond| == |orig| && o < |orig|
    requires cur == Keep(orig[..o], Retirement(cond)[..o]) + orig[o..]
    requires x == |Keep(orig[..o], Retirement(cond)[..o])|
    requires Retirement(cond)[o]
    ensures var r := Retirement(cond); var o' := NextVisit(r, o);
      var cur' := cur[..x] + cur[x + 1..];
      && cur' == Keep(orig[..o'], r[..o']) + orig[o'..]
      && (x + 1 == |Keep(orig[..o'], r[..o'])| || (o' == |orig| && x + 1 == |cur'| + 1))
      && (0 < o' < |orig| ==> !r[o' - 1])
  {
    var r := Retirement(cond);
    KeepSnoc(orig, r, o);
    assert orig[o..] == [orig[o]] + orig[o + 1..];
    assert cur[..x] + cur[x + 1..] == Keep(orig[..o + 1], r[..o + 1]) + orig[o + 1..];
    if o + 1 < |orig| {
      RetirementSkipsSuccessor(cond, o);
      PopSkipsSuccessor(cur[..x] + cur[x + 1..], orig, r, o + 1, x);
    } else {
      assert orig[o + 1..] == [];
    }
  }

  lemma PopSkipsSuccessor<T>(cur: seq<T>, orig: seq<T>, r: seq<bool>, s: nat, x: nat)
    requires |r| == |orig| && 0 < s < |orig| && !r[s] && r[s - 1]
    requires cur == Keep(orig[..s], r[..s]) + orig[s..]
    requires x == |Keep(orig[..s], r[..s])|
    ensures cur == Keep(orig[..s + 1], r[..s + 1]) + orig[s + 1..]
    ensures x + 1 == |Keep(orig[..s + 1], r[..s + 1])|
  {
    KeepSnoc(orig, r, s);
    assert orig[s..] == [orig[s]] + orig[s + 1..];
  }

  /** When the pass runs off the end, every original entry has been decided. */
  lemma PassEnd<T>(cur: seq<T>, orig: seq<T>, r: seq<bool>, o: nat, x: nat)
    requires |r| == |orig| && PassAt(cur, orig, r, o, x) && x >= |cur|
    ensures cur == Keep(orig, r)
  {
    assert o == |orig|;
    assert orig[..o] == orig && r[..o] == r;
  }

  /**
   * Three lists walked by one pop-inside-enumerate pass, popped together: each
   * stands where `PassAt` says, and the entry the slot counter is at, if any,
   * is one the pass looks at.
   */
  ghost predicate PassAt3<A, B, C>(a': seq<A>, b': seq<B>, c': seq<C>, a: seq<A>, b: seq<B>, c: seq<C>,
                                   r: seq<bool>, o: nat, x: nat)
    requires |r| == |a| == |b| == |c|
  {
    && PassAt(a', a, r, o, x) && PassAt(b', b, r, o, x) && PassAt(c', c, r, o, x)
    && (o < |a| ==> Visited(r, o))
  }

  /**
   * One step of the pass: slot `x` holds entry `o` of each list, and popping
   * it exactly when `cond[o]` holds moves the pass on to the next visited entry.
   */
  lemma PassStep3<A, B, C>(a': seq<A>, b': seq<B>, c': seq<C>, a: seq<A>, b: seq<B>, c: seq<C>,
                           cond: seq<bool>, o: nat, x: nat)
    requires |cond| == |a| == |b| == |c|
    requires PassAt3(a', b', c', a, b, c, Retirement(cond), o, x) && x < |a'|
    ensures o < |a| && x < |b'| && x < |c'|
    ensures a'[x] == a[o] && b'[x] == b[o] && c'[x] == c[o]
    ensures Retirement(cond)[o] == cond[o]
    ensures PassAt3(PopIf(a', x, cond[o]), PopIf(b', x, cond[o]), PopIf(c', x, cond[o]), a, b, c,
                    Retirement(cond), NextVisit(Retirement(cond), o), x + 1)
  {
    var r := Retirement(cond);
    PassAtInside(a', a, r, o, x);
    KeepSameLength(a[..o], b[..o], r[..o]);
    KeepSameLength(a[..o], c[..o], r[..o]);
    PassAtInside(b', b, r, o, x);
    PassAtInside(c', c, r, o, x);
    PopStep(a', a, cond, o, x);
    PopStep(b', b, cond, o, x);
    PopStep(c', c, cond, o, x);
  }

  /** The slot counter is inside the current list exactly while entries are left. */
  lemma PassAtInside<T>(cur: seq<T>, orig: seq<T>, r: seq<bool>, o: nat, x: nat)
    requires |r| == |orig| && PassAt(cur, orig, r, o, x)
    ensures x < |cur| <==> o < |orig|
  {
  }

  lemma PassEnd3<A, B, C>(a': seq<A>, b': seq<B>, c': seq<C>, a: seq<A>, b: seq<B>, c: seq<C>,
                          r: seq<bool>, o: nat, x: nat)
    requires |r| == |a| == |b| == |c|
    requires PassAt3(a', b', c', a, b, c, r, o, x) && x >= |a'|
    ensures a' == Keep(a, r) && b' == Keep(b, r) && c' == Keep(c, r)
  {
    assert o == |a|;
    assert a[..o] == a && b[..o] == b && c[..o] == c && r[..o] == r;
  }
}
