/** The scheduler's queues: doubly linked lists with head, tail and size, all
    threaded through the one node that every thread carries. */
module ThreadQueues {
  import opened NodeList
  import opened SchedModel

  ghost predicate Ends(tails: seq<int>, sizes: seq<int>, lists: seq<seq<nat>>) {
    && |tails| == |lists| && |sizes| == |lists|
    && forall k :: 0 <= k < |lists| ==> tails[k] == LastOf(lists[k]) && sizes[k] == |lists[k]|
  }

  lemma EndsUpdate(tails: seq<int>, sizes: seq<int>, lists: seq<seq<nat>>, k: nat, t: seq<nat>)
    requires Ends(tails, sizes, lists) && k < |lists|
    ensures |tails| == |lists| && |sizes| == |lists| && tails[k] == LastOf(lists[k]) && sizes[k] == |lists[k]|
    ensures Ends(tails[k := LastOf(t)], sizes[k := |t|], lists[k := t])
  {
  }

  lemma PrependChained(next: Links, prev: Links, s: seq<nat>, x: nat)
    requires Chained(next, prev, s) && x !in s
    ensures var next' := next[x := HeadOf(s)];
      var prev' := if s == [] then prev[x := NULL] else prev[x := NULL][s[0] := x];
      Chained(next', prev', [x] + s)
  {
    var t := [x] + s;
    assert NoDup(t);
  }

  lemma TailChained(next: Links, prev: Links, s: seq<nat>)
    requires Chained(next, prev, s) && s != []
    ensures var next' := next[s[0] := NULL];
      var prev' := if |s| > 1 then prev[s[1] := NULL] else prev;
      Chained(next', prev', s[1..])
  {
    var t := s[1..];
    assert NoDup(t);
  }

  lemma PopWf(next: Links, prev: Links, heads: seq<int>, lists: seq<seq<nat>>, next': Links, prev': Links, k: nat)
    requires Wf(next, prev, heads, lists) && k < |lists| && lists[k] != []
    requires next' == next[lists[k][0] := NULL]
    requires prev' == if |lists[k]| > 1 then prev[lists[k][1] := NULL] else prev
    ensures Wf(next', prev', heads[k := HeadOf(lists[k][1..])], lists[k := lists[k][1..]])
  {
    var s := lists[k];
    TailChained(next, prev, s);
    assert s[0] in s && (|s| > 1 ==> s[1] in s);
    OthersSame(next, prev, heads, lists, next', prev', k);
    WfUpdate(next, prev, heads, lists, next', prev', k, s[1..]);
  }

  lemma AppendWf(
    next: Links, prev: Links, heads: seq<int>, lists: seq<seq<nat>>, next': Links, prev': Links, k: nat, x: nat)
    requires Wf(next, prev, heads, lists) && k < |lists|
    requires forall j :: 0 <= j < |lists| ==> x !in lists[j]
    requires var s := lists[k];
      && next' == (if s == [] then next[x := NULL] else next[x := NULL][s[|s| - 1] := x])
      && prev' == prev[x := LastOf(s)]
    ensures Wf(next', prev', heads[k := HeadOf(lists[k] + [x])], lists[k := lists[k] + [x]])
  {
    var s := lists[k];
    AppendChained(next, prev, s, x);
    assert s != [] ==> s[|s| - 1] in s;
    OthersSame(next, prev, heads, lists, next', prev', k);
    hide Chained;
    WfUpdate(next, prev, heads, lists, next', prev', k, s + [x]);
  }

  lemma PrependWf(
    next: Links, prev: Links, heads: seq<int>, lists: seq<seq<nat>>, next': Links, prev': Links, k: nat, x: nat)
    requires Wf(next, prev, heads, lists) && k < |lists|
    requires forall j :: 0 <= j < |lists| ==> x !in lists[j]
    requires next' == next[x := HeadOf(lists[k])]
    requires prev' == if lists[k] == [] then prev[x := NULL] else prev[x := NULL][lists[k][0] := x]
    ensures Wf(next', prev', heads[k := x], lists[k := [x] + lists[k]])
  {
    var s := lists[k];
    PrependChained(next, prev, s, x);
    assert s != [] ==> s[0] in s;
    OthersSame(next, prev, heads, lists, next', prev', k);
    WfUpdate(next, prev, heads, lists, next', prev', k, [x] + s);
  }

  class Queues {
    var next: Links
    var prev: Links
    var heads: seq<int>
    var tails: seq<int>
    var sizes: seq<int>
    ghost var lists: seq<seq<nat>>

    ghost predicate Valid()
      reads this
    {
      Wf(next, prev, heads, lists) && Ends(tails, sizes, lists)
    }

    ghost predicate Loose(x: nat)
      reads this
    {
      forall k :: 0 <= k < |lists| ==> x !in lists[k]
    }

    constructor (n: nat)
      ensures Valid() && lists == seq(n, _ => [])
    {
      next, prev := map[], map[];
      heads, tails, sizes := seq(n, _ => NULL), seq(n, _ => NULL), seq(n, _ => 0);
      lists := seq(n, _ => []);
    }

    method Front(k: nat) returns (x: int)
      requires Valid() && k < |lists|
      ensures x == HeadOf(lists[k])
    {
      x := heads[k];
    }

    method ListPushBack(k: nat, x: nat)
      requires Valid() && k < |lists| && Loose(x)
      modifies this
      ensures Valid() && lists == old(lists)[k := old(lists)[k] + [x]]
    {
      hide Wf, Ends;
      ghost var s := lists[k];
      HeadAt(next, prev, heads, lists, k);
      EndsUpdate(tails, sizes, lists, k, s + [x]);
      next := next[x := NULL];
      prev := prev[x := tails[k]];
      if tails[k] != NULL {
        next := next[tails[k] := x];
      } else {
        heads := heads[k := x];
      }
      tails := tails[k := x];
      sizes := sizes[k := sizes[k] + 1];
      assert heads == old(heads)[k := HeadOf(s + [x])];
      AppendWf(old(next), old(prev), old(heads), lists, next, prev, k, x);
      lists := lists[k := s + [x]];
    }

    /** list_pop_front: None is the underflow panic. */
    method ListPopFront(k: nat) returns (r: Option<nat>)
      requires Valid() && k < |lists|
      modifies this
      ensures Valid()
      ensures old(lists)[k] == [] ==> r == None && lists == old(lists)
      ensures old(lists)[k] != [] ==> r == Some(old(lists)[k][0]) && lists == old(lists)[k := old(lists)[k][1..]]
    {
      hide Wf, Ends;
      ghost var s := lists[k];
      HeadAt(next, prev, heads, lists, k);
      if heads[k] == NULL {
        return None;
      }
      LinksAt(next, prev, heads, lists, k, 0);
      EndsUpdate(tails, sizes, lists, k, s[1..]);
      var node := heads[k];
      var after := next[node];
      if heads[k] != tails[k] {
        prev := prev[after := NULL];
      } else {
        tails := tails[k := NULL];
      }
      heads := heads[k := after];
      next := next[node := NULL];
      sizes := sizes[k := sizes[k] - 1];
      PopWf(old(next), old(prev), old(heads), lists, next, prev, k);
      lists := lists[k := s[1..]];
      assert tails == old(tails)[k := LastOf(s[1..])];
      return Some(node);
    }

    method ListPushFront(k: nat, x: nat)
      requires Valid() && k < |lists| && Loose(x)
      modifies this
      ensures Valid() && lists == old(lists)[k := [x] + old(lists)[k]]
    {
      hide Wf, Ends;
      ghost var s := lists[k];
      HeadAt(next, prev, heads, lists, k);
      EndsUpdate(tails, sizes, lists, k, [x] + s);
      prev := prev[x := NULL];
      next := next[x := heads[k]];
      if heads[k] != NULL {
        prev := prev[heads[k] := x];
      } else {
        tails := tails[k := x];
      }
      heads := heads[k := x];
      sizes := sizes[k := sizes[k] + 1];
      PrependWf(old(next), old(prev), old(heads), lists, next, prev, k, x);
      lists := lists[k := [x] + s];
      assert tails == old(tails)[k := LastOf([x] + s)];
    }

    /** The search loop of list_sorted_push. */
    method FindPlace(k: nat, w: nat, th: map<nat, Thread>, ghost m: Sched) returns (at: int)
      requires Valid() && k < |lists| && m.th == th
      requires forall y :: y in lists[k] ==> y in th
      ensures var p := InsertAt(m, lists[k], w);
        at == if p < |lists[k]| then lists[k][p] else NULL
    {
      ghost var s := lists[k];
      ghost var i := 0;
      at := heads[k];
      assert s[0..] == s;
      while at != NULL && th[at].wakeAt <= w
        invariant 0 <= i <= |s| && at == (if i < |s| then s[i] else NULL)
        invariant InsertAt(m, s, w) == i + InsertAt(m, s[i..], w)
        decreases |s| - i
      {
        assert s[i] in s && s[i..][1..] == s[i + 1..];
        at := next[at];
        i := i + 1;
      }
    }

    method ListSortedPush(k: nat, x: nat, th: map<nat, Thread>, ghost m: Sched)
      requires Valid() && k < |lists| && Loose(x) && m.th == th && x in th
      requires forall y :: y in lists[k] ==> y in th
      modifies this
      ensures Valid()
      ensures lists == old(lists)[k := Inserted(old(lists)[k], InsertAt(m, old(lists)[k], th[x].wakeAt), x)]
    {
      hide Wf, Ends, InsertAt, Inserted;
      ghost var s := lists[k];
      HeadAt(next, prev, heads, lists, k);
      ListsNoDup(next, prev, heads, lists, k);
      var at := FindPlace(k, th[x].wakeAt, th, m);
      ghost var p := InsertAt(m, s, th[x].wakeAt);
      InsertedAtEnds(s, x);
      if at == NULL {
        ListPushBack(k, x);
      } else if at == heads[k] {
        ListPushFront(k, x);
      } else {
        InsertMiddle(k, p, x, at);
      }
    }

    method InsertMiddle(k: nat, ghost p: nat, x: nat, at: nat)
      requires Valid() && k < |lists| && Loose(x) && 0 < p < |lists[k]| && at == lists[k][p]
      modifies this
      ensures Valid() && lists == old(lists)[k := Inserted(old(lists)[k], p, x)]
    {
      hide Wf, Ends, Inserted;
      ghost var s := lists[k];
      LinksAt(next, prev, heads, lists, k, p);
      EndsUpdate(tails, sizes, lists, k, Inserted(s, p, x));
      InsertedEnds(s, p, x);
      var before := prev[at];
      prev := prev[x := before];
      next := next[x := at];
      next := next[before := x];
      prev := prev[at := x];
      sizes := sizes[k := sizes[k] + 1];
      InsertMiddleWf(old(next), old(prev), heads, lists, next, prev, k, p, x);
      lists := lists[k := Inserted(s, p, x)];
      assert tails == tails[k := LastOf(Inserted(s, p, x))];
    }
  }

  lemma InsertedAtEnds(s: seq<nat>, x: nat)
    ensures Inserted(s, |s|, x) == s + [x] && Inserted(s, 0, x) == [x] + s
  {
  }

  lemma InsertedEnds(s: seq<nat>, p: nat, x: nat)
    requires p < |s|
    ensures LastOf(Inserted(s, p, x)) == LastOf(s) && |Inserted(s, p, x)| == |s| + 1
  {
  }

  lemma InsertMiddleWf(
    next: Links, prev: Links, heads: seq<int>, lists: seq<seq<nat>>, next': Links, prev': Links, k: nat, p: nat,
    x: nat)
    requires Wf(next, prev, heads, lists) && k < |lists| && 0 < p < |lists[k]|
    requires forall j :: 0 <= j < |lists| ==> x !in lists[j]
    requires next' == next[x := lists[k][p]][lists[k][p - 1] := x]
    requires prev' == prev[x := lists[k][p - 1]][lists[k][p] := x]
    ensures Wf(next', prev', heads, lists[k := Inserted(lists[k], p, x)])
  {
    hide Wf;
    InsertedWf(next, prev, heads, lists, k, p - 1, x);
    var s := lists[k];
    assert s[p] != x && s[p - 1] != x;
    assert next' == next[s[p - 1] := x][x := s[p]] && prev' == prev[x := s[p - 1]][s[p] := x];
  }
}
