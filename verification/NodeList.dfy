/** The kernel's intrusive doubly linked lists: several heads over one pool of
    nodes, each node carrying one next and one prev link. */
module NodeList {

  const NULL: int := -1

  datatype Option<+T> = None | Some(value: T)

  type Links = map<nat, int>

  ghost predicate NoDup(s: seq<nat>) {
    forall i, j :: 0 <= i < j < |s| ==> s[i] != s[j]
  }

  function Without(s: seq<nat>, x: nat): seq<nat> {
    if s == [] then [] else if s[0] == x then s[1..] else [s[0]] + Without(s[1..], x)
  }

  lemma {:induction false} WithoutFacts(s: seq<nat>, x: nat)
    requires NoDup(s)
    ensures NoDup(Without(s, x))
    ensures forall y :: y in Without(s, x) <==> y in s && y != x
  {
    if s != [] {
      assert NoDup(s[1..]) && s[0] !in s[1..];
      WithoutFacts(s[1..], x);
    }
  }

  lemma {:induction false} WithoutAt(s: seq<nat>, p: nat)
    requires p < |s| && NoDup(s)
    ensures Without(s, s[p]) == s[..p] + s[p + 1..]
  {
    if p > 0 {
      WithoutAt(s[1..], p - 1);
      assert s[1..][p - 1] == s[p];
      assert s[..p] == [s[0]] + s[1..][..p - 1];
    }
  }

  function NextIn(s: seq<nat>, i: nat): int { if i + 1 < |s| then s[i + 1] else NULL }
  function PrevIn(s: seq<nat>, i: nat): int
    requires i <= |s|
  {
    if i > 0 then s[i - 1] else NULL
  }

  /** The nodes of s are chained in order, both ways. */
  ghost predicate Chained(next: Links, prev: Links, s: seq<nat>) {
    && NoDup(s)
    && forall i :: 0 <= i < |s| ==>
         s[i] in next && s[i] in prev && next[s[i]] == NextIn(s, i) && prev[s[i]] == PrevIn(s, i)
  }

  function HeadOf(s: seq<nat>): int { if s == [] then NULL else s[0] }

  ghost predicate Disjoint(s: seq<nat>, t: seq<nat>) {
    forall x :: x in s ==> x !in t
  }

  /** Every list is chained from its head, and no node is on two lists. */
  ghost predicate Wf(next: Links, prev: Links, heads: seq<int>, lists: seq<seq<nat>>) {
    && |heads| == |lists|
    && (forall k :: 0 <= k < |lists| ==> heads[k] == HeadOf(lists[k]) && Chained(next, prev, lists[k]))
    && (forall j, k :: 0 <= j < |lists| && 0 <= k < |lists| && j != k ==> Disjoint(lists[j], lists[k]))
  }

  /** What the links of node i of list k hold. */
  lemma LinksAt(next: Links, prev: Links, heads: seq<int>, lists: seq<seq<nat>>, k: nat, i: nat)
    requires Wf(next, prev, heads, lists) && k < |lists| && i < |lists[k]|
    ensures lists[k][i] in next && lists[k][i] in prev
    ensures next[lists[k][i]] == NextIn(lists[k], i) && prev[lists[k][i]] == PrevIn(lists[k], i)
    ensures (lists[k][0] == lists[k][|lists[k]| - 1]) == (|lists[k]| == 1)
    ensures |heads| == |lists| && heads[k] == lists[k][0]
  {
    assert Chained(next, prev, lists[k]);
  }

  lemma HeadAt(next: Links, prev: Links, heads: seq<int>, lists: seq<seq<nat>>, k: nat)
    requires Wf(next, prev, heads, lists) && k < |lists|
    ensures |heads| == |lists| && heads[k] == HeadOf(lists[k])
  {
  }

  lemma ListsNoDup(next: Links, prev: Links, heads: seq<int>, lists: seq<seq<nat>>, k: nat)
    requires Wf(next, prev, heads, lists) && k < |lists|
    ensures NoDup(lists[k])
  {
    assert Chained(next, prev, lists[k]);
  }

  /** A list none of whose nodes is written stays chained. */
  lemma ChainedFrame(next: Links, prev: Links, next': Links, prev': Links, s: seq<nat>)
    requires Chained(next, prev, s)
    requires forall x :: x in s ==> x in next' && x in prev' && next'[x] == next[x] && prev'[x] == prev[x]
    ensures Chained(next', prev', s)
  {
  }

  /** Replacing list k, when only its own nodes and nodes on no list were written. */
  lemma WfUpdate(next: Links, prev: Links, heads: seq<int>, lists: seq<seq<nat>>,
                 next': Links, prev': Links, k: nat, s: seq<nat>)
    requires Wf(next, prev, heads, lists) && k < |lists|
    requires Chained(next', prev', s)
    requires forall j :: 0 <= j < |lists| && j != k ==> Disjoint(s, lists[j])
    requires forall j, x :: 0 <= j < |lists| && j != k && x in lists[j] ==>
               x in next' && x in prev' && next'[x] == next[x] && prev'[x] == prev[x]
    ensures Wf(next', prev', heads[k := HeadOf(s)], lists[k := s])
  {
    forall j | 0 <= j < |lists| && j != k
      ensures Chained(next', prev', lists[j])
    {
      ChainedFrame(next, prev, next', prev', lists[j]);
    }
  }

  /** Where a head pointer lives: in the table of heads, or in a node's next field. */
  datatype Ref = Head(k: nat) | NextOf(node: nat)

  class Pool {
    var next: Links
    var prev: Links
    var heads: seq<int>
    ghost var lists: seq<seq<nat>>

    ghost predicate Valid()
      reads this
    {
      Wf(next, prev, heads, lists)
    }

    ghost predicate Loose(x: nat)
      reads this
    {
      forall k :: 0 <= k < |lists| ==> x !in lists[k]
    }

    constructor (n: nat)
      ensures Valid() && |lists| == n && forall k :: 0 <= k < n ==> lists[k] == []
      ensures next == map[] && prev == map[]
    {
      next, prev := map[], map[];
      heads := seq(n, _ => NULL);
      lists := seq(n, _ => []);
    }

    method IsEmpty(k: nat) returns (b: bool)
      requires Valid() && k < |lists|
      ensures b <==> lists[k] == []
    {
      b := heads[k] == NULL;
    }

    method PushNode(k: nat, x: nat)
      requires Valid() && k < |lists| && Loose(x)
      modifies this
      ensures Valid() && lists == old(lists)[k := [x] + old(lists)[k]]
    {
      ghost var s := [x] + lists[k];
      var h := heads[k];
      next := next[x := h];
      prev := prev[x := NULL];
      if h != NULL {
        prev := prev[h := x];
      }
      heads := heads[k := x];
      assert lists[k] != [] ==> lists[k][0] in lists[k];
      assert Chained(next, prev, s);
      WfUpdate(old(next), old(prev), old(heads), lists, next, prev, k, s);
      lists := lists[k := s];
    }

    method PopNode(k: nat) returns (top: nat)
      requires Valid() && k < |lists| && lists[k] != []
      modifies this
      ensures Valid() && top == old(lists)[k][0] && lists == old(lists)[k := old(lists)[k][1..]]
    {
      ghost var s := lists[k][1..];
      top := heads[k];
      var h := next[top];
      heads := heads[k := h];
      if h != NULL {
        prev := prev[h := NULL];
      }
      assert s != [] ==> s[0] in lists[k];
      assert Chained(next, prev, s);
      WfUpdate(old(next), old(prev), old(heads), lists, next, prev, k, s);
      lists := lists[k := s];
    }

    /** remove_node with the head pointer at ref. Given a node's next field, the
        caller must not be removing that next node, nor the first of the list. */
    method RemoveNode(ref: Ref, ghost k: nat, x: nat)
      requires Valid() && k < |lists| && x in lists[k]
      requires ref == Head(k) || (ref.NextOf? && ref.node in next && next[ref.node] != x && x != lists[k][0])
      modifies this
      ensures Valid() && lists == old(lists)[k := Without(old(lists)[k], x)]
    {
      var h := if ref.Head? then heads[ref.k] else next[ref.node];
      if x == h {
        var _ := PopNode(ref.k);
        return;
      }
      ghost var s := lists[k];
      ghost var p :| 0 <= p < |s| && s[p] == x;
      Unlink(k, p, x);
      WithoutAt(s, p);
    }

    /** The writes of insert_node. When prev is the last node, the link after the
        new node is left as it is. */
    method InsertNode(p: nat, x: nat)
      requires p in next
      modifies this`next, this`prev
      ensures prev == (if old(next)[p] < 0 then old(prev)[x := p] else old(prev)[x := p][old(next)[p] := x])
      ensures next == (if old(next)[p] < 0 then old(next)[p := x] else old(next)[p := x][x := old(next)[p]])
    {
      var n := next[p];
      next := next[p := x];
      prev := prev[x := p];
      if n >= 0 {
        next := next[x := n];
        prev := prev[n := x];
      }
    }

    /** insert_node into the middle of a list, after its node number i. */
    method InsertAfter(ghost k: nat, ghost i: nat, p: nat, x: nat)
      requires Valid() && k < |lists| && i + 1 < |lists[k]| && p == lists[k][i] && Loose(x)
      modifies this
      ensures Valid() && lists == old(lists)[k := old(lists)[k][..i + 1] + [x] + old(lists)[k][i + 1..]]
    {
      ghost var s := lists[k];
      InsertedWf(next, prev, heads, lists, k, i, x);
      InsertNode(p, x);
      lists := lists[k := s[..i + 1] + [x] + s[i + 1..]];
    }

    /** A new run of three nodes, linked to each other and then to the end of list k. */
    method AppendThree(k: nat, last: int, f: nat, m: nat, l: nat)
      requires Valid() && k < |lists| && Loose(f) && Loose(m) && Loose(l) && f != m && m != l && f != l
      requires last == if lists[k] == [] then NULL else lists[k][|lists[k]| - 1]
      modifies this
      ensures Valid() && lists == old(lists)[k := old(lists)[k] + [f, m, l]]
    {
      hide Wf;
      ghost var s := lists[k];
      AppendedWf(next, prev, heads, lists, k, f, m, l);
      next := next[f := NULL][m := NULL][l := NULL];
      prev := prev[f := NULL][m := NULL][l := NULL];
      InsertNode(f, m);
      InsertNode(m, l);
      if heads[k] == NULL {
        heads := heads[k := f];
      } else {
        InsertNode(last, f);
      }
      assert next == AppendedNext(old(next), s, f, m, l);
      assert prev == AppendedPrev(old(prev), s, f, m, l);
      assert heads == old(heads)[k := HeadOf(s + [f, m, l])];
      lists := lists[k := s + [f, m, l]];
    }

    method Unlink(ghost k: nat, ghost p: nat, x: nat)
      requires Valid() && k < |lists| && 0 < p < |lists[k]| && x == lists[k][p]
      modifies this
      ensures Valid() && lists == old(lists)[k := old(lists)[k][..p] + old(lists)[k][p + 1..]]
    {
      ghost var s := lists[k];
      var n, q := next[x], prev[x];
      if n != NULL {
        prev := prev[n := q];
      }
      if q != NULL {
        next := next[q := n];
      }
      next := next[x := NULL];
      prev := prev[x := NULL];
      UnlinkedWf(old(next), old(prev), heads, lists, next, prev, k, p);
      lists := lists[k := s[..p] + s[p + 1..]];
    }
  }

  lemma UnlinkedWf(
    next: Links, prev: Links, heads: seq<int>, lists: seq<seq<nat>>, next': Links, prev': Links, k: nat, p: nat)
    requires Wf(next, prev, heads, lists) && k < |lists| && 0 < p < |lists[k]|
    requires var s := lists[k];
      && next' == next[s[p - 1] := NextIn(s, p)][s[p] := NULL]
      && prev' == (if p + 1 < |s| then prev[s[p + 1] := s[p - 1]] else prev)[s[p] := NULL]
    ensures Wf(next', prev', heads, lists[k := lists[k][..p] + lists[k][p + 1..]])
  {
    var s := lists[k];
    var t := s[..p] + s[p + 1..];
    RemovedChained(next, prev, next', prev', s, p);
    assert heads[k := HeadOf(t)] == heads;
    assert s[p] in s && s[p - 1] in s && (p + 1 < |s| ==> s[p + 1] in s);
    OthersSame(next, prev, heads, lists, next', prev', k);
    hide Chained;
    WfUpdate(next, prev, heads, lists, next', prev', k, t);
  }

  lemma RemovedChained(next: Links, prev: Links, next': Links, prev': Links, s: seq<nat>, p: nat)
    requires Chained(next, prev, s) && 0 < p < |s|
    requires next' == next[s[p - 1] := NextIn(s, p)][s[p] := NULL]
    requires prev' == (if p + 1 < |s| then prev[s[p + 1] := s[p - 1]] else prev)[s[p] := NULL]
    ensures Chained(next', prev', s[..p] + s[p + 1..])
  {
    hide NextIn, PrevIn, NoDup;
    var t := s[..p] + s[p + 1..];
    WithoutNoDup(s, p);
    forall i | 0 <= i < |t|
      ensures t[i] in next' && t[i] in prev' && next'[t[i]] == NextIn(t, i) && prev'[t[i]] == PrevIn(t, i)
    {
      RemovedAt(next, prev, next', prev', s, p, if i < p then i else i + 1);
      RemovedSeq(s, p, i);
    }
  }

  lemma WithoutNoDup(s: seq<nat>, p: nat)
    requires NoDup(s) && p < |s|
    ensures NoDup(s[..p] + s[p + 1..])
  {
  }

  /** Neighbours in a sequence with element p taken out. */
  lemma RemovedSeq(s: seq<nat>, p: nat, i: nat)
    requires 0 < p < |s| && i + 1 < |s|
    ensures var t, j := s[..p] + s[p + 1..], if i < p then i else i + 1;
      && t[i] == s[j]
      && NextIn(t, i) == (if j == p - 1 then NextIn(s, p) else NextIn(s, j))
      && PrevIn(t, i) == (if j == p + 1 then s[p - 1] else PrevIn(s, j))
  {
  }

  lemma RemovedAt(next: Links, prev: Links, next': Links, prev': Links, s: seq<nat>, p: nat, j: nat)
    requires Chained(next, prev, s) && 0 < p < |s| && j < |s| && j != p
    requires next' == next[s[p - 1] := NextIn(s, p)][s[p] := NULL]
    requires prev' == (if p + 1 < |s| then prev[s[p + 1] := s[p - 1]] else prev)[s[p] := NULL]
    ensures s[j] in next' && s[j] in prev'
    ensures next'[s[j]] == if j == p - 1 then NextIn(s, p) else NextIn(s, j)
    ensures prev'[s[j]] == if j == p + 1 then s[p - 1] else PrevIn(s, j)
  {
    assert s[j] != s[p];
    assert j != p - 1 ==> s[j] != s[p - 1];
    assert p + 1 < |s| && j != p + 1 ==> s[j] != s[p + 1];
  }

  /** Writes that stay within list k and loose nodes leave the other lists alone. */
  lemma OthersSame(next: Links, prev: Links, heads: seq<int>, lists: seq<seq<nat>>, next': Links, prev': Links, k: nat)
    requires Wf(next, prev, heads, lists) && k < |lists|
    requires next.Keys <= next'.Keys && prev.Keys <= prev'.Keys
    requires forall x :: x in next && next'[x] != next[x] ==> forall j :: 0 <= j < |lists| && j != k ==> x !in lists[j]
    requires forall x :: x in prev && prev'[x] != prev[x] ==> forall j :: 0 <= j < |lists| && j != k ==> x !in lists[j]
    ensures forall j, x :: 0 <= j < |lists| && j != k && x in lists[j] ==>
              x in next' && x in prev' && next'[x] == next[x] && prev'[x] == prev[x]
  {
    forall j, x | 0 <= j < |lists| && j != k && x in lists[j]
      ensures x in next' && x in prev' && next'[x] == next[x] && prev'[x] == prev[x]
    {
      assert Chained(next, prev, lists[j]);
    }
  }

  lemma InsertedAt(s: seq<nat>, p: nat, x: nat)
    requires NoDup(s) && x !in s && p <= |s|
    ensures NoDup(s[..p] + [x] + s[p..])
    ensures forall y :: y in s[..p] + [x] + s[p..] <==> y in s || y == x
  {
    var r := s[..p] + [x] + s[p..];
    assert forall i :: 0 <= i < |r| ==> r[i] == if i < p then s[i] else if i == p then x else s[i - 1];
    forall y
      ensures y in r <==> y in s || y == x
    {
      if y in s {
        var i :| 0 <= i < |s| && s[i] == y;
        assert r[if i < p then i else i + 1] == y;
      }
      assert r[p] == x;
    }
  }

  lemma InsertedKeeps(next: Links, prev: Links, s: seq<nat>, p: nat, x: nat, j: nat)
    requires Chained(next, prev, s) && x !in s && 0 < p < |s| && j < |s|
    ensures var next', prev' := next[s[p - 1] := x][x := s[p]], prev[x := s[p - 1]][s[p] := x];
      && s[j] in next' && s[j] in prev'
      && next'[s[j]] == (if j == p - 1 then x else NextIn(s, j))
      && prev'[s[j]] == (if j == p then x else PrevIn(s, j))
  {
    assert s[j] in s && (j != p - 1 ==> s[j] != s[p - 1]) && (j != p ==> s[j] != s[p]);
  }

  /** Neighbours in a sequence with x put in at p. */
  lemma InsertedSeq(s: seq<nat>, p: nat, x: nat, i: nat)
    requires 0 < p < |s| && i <= |s|
    ensures var t := s[..p] + [x] + s[p..];
      && t[i] == (if i < p then s[i] else if i == p then x else s[i - 1])
      && NextIn(t, i) == (if i == p - 1 then x else if i == p then s[p]
                          else if i < p then NextIn(s, i) else NextIn(s, i - 1))
      && PrevIn(t, i) == (if i == p + 1 then x else if i == p then s[p - 1]
                          else if i < p then PrevIn(s, i) else PrevIn(s, i - 1))
  {
  }

  lemma InsertedChained(next: Links, prev: Links, s: seq<nat>, p: nat, x: nat)
    requires Chained(next, prev, s) && x !in s && 0 < p < |s|
    ensures Chained(next[s[p - 1] := x][x := s[p]], prev[x := s[p - 1]][s[p] := x], s[..p] + [x] + s[p..])
  {
    hide NextIn, PrevIn, NoDup;
    var t := s[..p] + [x] + s[p..];
    var next', prev' := next[s[p - 1] := x][x := s[p]], prev[x := s[p - 1]][s[p] := x];
    InsertedAt(s, p, x);
    assert s[p] in s;
    forall i | 0 <= i < |t|
      ensures t[i] in next' && t[i] in prev' && next'[t[i]] == NextIn(t, i) && prev'[t[i]] == PrevIn(t, i)
    {
      InsertedSeq(s, p, x, i);
      if i != p {
        InsertedKeeps(next, prev, s, p, x, if i < p then i else i - 1);
      }
    }
  }

  lemma InsertedWf(next: Links, prev: Links, heads: seq<int>, lists: seq<seq<nat>>, k: nat, i: nat, x: nat)
    requires Wf(next, prev, heads, lists) && k < |lists| && i + 1 < |lists[k]|
    requires forall j :: 0 <= j < |lists| ==> x !in lists[j]
    ensures var s := lists[k];
      && s[i] in next && next[s[i]] == s[i + 1]
      && Wf(next[s[i] := x][x := s[i + 1]], prev[x := s[i]][s[i + 1] := x], heads,
            lists[k := s[..i + 1] + [x] + s[i + 1..]])
  {
    hide Chained, NoDup;
    var s := lists[k];
    var next', prev' := next[s[i] := x][x := s[i + 1]], prev[x := s[i]][s[i + 1] := x];
    var t := s[..i + 1] + [x] + s[i + 1..];
    LinksAt(next, prev, heads, lists, k, i);
    ListsNoDup(next, prev, heads, lists, k);
    assert s[i] in s && s[i + 1] in s;
    InsertedChained(next, prev, s, i + 1, x);
    InsertedAt(s, i + 1, x);
    OthersSame(next, prev, heads, lists, next', prev', k);
    assert heads[k := HeadOf(t)] == heads;
    hide Chained;
    WfUpdate(next, prev, heads, lists, next', prev', k, t);
  }

  function LastOf(s: seq<nat>): int { if s == [] then NULL else s[|s| - 1] }

  lemma AppendChained(next: Links, prev: Links, s: seq<nat>, x: nat)
    requires Chained(next, prev, s) && x !in s
    ensures var prev' := prev[x := LastOf(s)];
      var next' := if s == [] then next[x := NULL] else next[x := NULL][s[|s| - 1] := x];
      Chained(next', prev', s + [x])
  {
    var t := s + [x];
    assert NoDup(t);
  }

  /** The links after AppendThree. */
  ghost function AppendedNext(next: Links, s: seq<nat>, f: nat, m: nat, l: nat): Links {
    var n := next[f := NULL][m := NULL][l := NULL][f := m][m := l];
    if s == [] then n else n[s[|s| - 1] := f]
  }

  ghost function AppendedPrev(prev: Links, s: seq<nat>, f: nat, m: nat, l: nat): Links {
    var p := prev[f := NULL][m := NULL][l := NULL][m := f][l := m];
    if s == [] then p else p[f := s[|s| - 1]]
  }

  lemma AppendedChained(next: Links, prev: Links, s: seq<nat>, f: nat, m: nat, l: nat)
    requires Chained(next, prev, s) && f != m && m != l && f != l && f !in s && m !in s && l !in s
    ensures Chained(AppendedNext(next, s, f, m, l), AppendedPrev(prev, s, f, m, l), s + [f, m, l])
  {
    hide Chained;
    var n1, p1 := if s == [] then next[f := NULL] else next[f := NULL][s[|s| - 1] := f], prev[f := LastOf(s)];
    AppendChained(next, prev, s, f);
    assert s != [] ==> s[|s| - 1] in s;
    AppendChained(n1, p1, s + [f], m);
    var n2, p2 := n1[m := NULL][f := m], p1[m := f];
    assert s + [f] + [m] == s + [f, m];
    AppendChained(n2, p2, s + [f, m], l);
    assert s + [f, m] + [l] == s + [f, m, l];
    assert AppendedNext(next, s, f, m, l) == n2[l := NULL][m := l];
    assert AppendedPrev(prev, s, f, m, l) == p2[l := m];
  }

  lemma AppendedWf(next: Links, prev: Links, heads: seq<int>, lists: seq<seq<nat>>, k: nat, f: nat, m: nat, l: nat)
    requires Wf(next, prev, heads, lists) && k < |lists| && f != m && m != l && f != l
    requires forall j :: 0 <= j < |lists| ==> f !in lists[j] && m !in lists[j] && l !in lists[j]
    ensures k < |heads| && heads[k] == HeadOf(lists[k])
    ensures lists[k] != [] ==>
      var e := lists[k][|lists[k]| - 1]; e in next && next[e] == NULL && e in lists[k]
    ensures Wf(AppendedNext(next, lists[k], f, m, l), AppendedPrev(prev, lists[k], f, m, l),
               heads[k := HeadOf(lists[k] + [f, m, l])], lists[k := lists[k] + [f, m, l]])
  {
    var s, t := lists[k], lists[k] + [f, m, l];
    var next', prev' := AppendedNext(next, s, f, m, l), AppendedPrev(prev, s, f, m, l);
    assert Chained(next, prev, s);
    AppendedChained(next, prev, s, f, m, l);
    assert s != [] ==> s[|s| - 1] in s;
    OthersSame(next, prev, heads, lists, next', prev', k);
    hide Chained;
    WfUpdate(next, prev, heads, lists, next', prev', k, t);
  }
}
