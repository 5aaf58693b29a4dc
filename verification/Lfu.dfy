/** The LFU replacer: one list of pages per use count, and a least count that may be unknown. */
module Lfu {
  import opened Collections

  class FreqNode {
    const freq: nat
    var objs: seq<nat>
    var nObj: nat

    constructor (freq: nat)
      ensures this.freq == freq && objs == [] && nObj == 0
    {
      this.freq := freq;
      objs := [];
      nObj := 0;
    }
  }

  /** Longest here first: each page came to this list later than the ones before it. */
  ghost predicate ByAge(s: seq<nat>, age: map<nat, nat>, clock: nat) {
    && (forall i | 0 <= i < |s| :: s[i] in age && age[s[i]] < clock)
    && (forall i, j | 0 <= i < j < |s| :: age[s[i]] < age[s[j]])
  }

  lemma {:induction false} RemoveOk(s: seq<nat>, p: nat, age: map<nat, nat>, clock: nat)
    requires ByAge(s, age, clock)
    ensures ByAge(Remove(s, p), age, clock) && p !in Remove(s, p)
    ensures forall x :: x in Remove(s, p) <==> x in s && x != p
  {
    if s != [] {
      assert s == [s[0]] + s[1..];
      assert forall x | x in s[1..] :: x != s[0];
      if s[0] != p {
        RemoveOk(s[1..], p, age, clock);
        var r := Remove(s[1..], p);
        forall i | 0 <= i < |r| ensures age[s[0]] < age[r[i]] {
          assert r[i] in s[1..];
        }
      }
    }
  }

  /** The list of count f holds exactly the pages with that count. */
  ghost predicate ListOk(counts: map<nat, nat>, age: map<nat, nat>, clock: nat, f: nat, list: seq<nat>) {
    ByAge(list, age, clock) && forall p :: p in list <==> p in counts && counts[p] == f
  }

  ghost predicate ListsOk(counts: map<nat, nat>, age: map<nat, nat>, clock: nat, lists: map<nat, seq<nat>>) {
    && (forall f {:trigger ListOk(counts, age, clock, f, lists[f])} | f in lists :: ListOk(counts, age, clock, f, lists[f]))
    && (forall p | p in counts :: counts[p] in lists && counts[p] >= 1)
    && counts.Keys == age.Keys && 0 !in lists
  }

  /** A page leaves its list. */
  lemma LeaveKeeps(counts: map<nat, nat>, age: map<nat, nat>, clock: nat, lists: map<nat, seq<nat>>, p: nat)
    requires ListsOk(counts, age, clock, lists) && p in counts
    ensures var f := counts[p];
            ListsOk(counts - {p}, age - {p}, clock, lists[f := Remove(lists[f], p)])
  {
    var f := counts[p];
    var lists' := lists[f := Remove(lists[f], p)];
    forall g | g in lists' ensures ListOk(counts - {p}, age - {p}, clock, g, lists'[g]) {
      assert ListOk(counts, age, clock, g, lists[g]);
      RemoveOk(lists[g], p, age, clock);
    }
    assert (counts - {p}).Keys == (age - {p}).Keys;
  }

  /** A page arrives at the end of the list of count f. */
  lemma ArriveKeeps(counts: map<nat, nat>, age: map<nat, nat>, clock: nat, lists: map<nat, seq<nat>>, p: nat, f: nat)
    requires ListsOk(counts, age, clock, lists) && p !in counts && f >= 1
    ensures var list := if f in lists then lists[f] else [];
            ListsOk(counts[p := f], age[p := clock], clock + 1, lists[f := list + [p]])
  {
    var list := if f in lists then lists[f] else [];
    var lists' := lists[f := list + [p]];
    forall g | g in lists' ensures ListOk(counts[p := f], age[p := clock], clock + 1, g, lists'[g]) {
      if g in lists { assert ListOk(counts, age, clock, g, lists[g]); }
    }
    assert (counts[p := f]).Keys == (age[p := clock]).Keys;
  }

  /** Least used, and of the least used the one that has been at its count the longest. */
  ghost predicate LeastUsed(counts: map<nat, nat>, age: map<nat, nat>, v: nat)
    requires counts.Keys == age.Keys
  {
    v in counts && forall p | p in counts :: counts[v] < counts[p] || (counts[v] == counts[p] && age[v] <= age[p])
  }

  lemma FirstOfLeastList(counts: map<nat, nat>, age: map<nat, nat>, clock: nat, lists: map<nat, seq<nat>>, f: nat)
    requires ListsOk(counts, age, clock, lists) && f in lists && lists[f] != []
    requires forall p | p in counts :: f <= counts[p]
    ensures LeastUsed(counts, age, lists[f][0]) && counts[lists[f][0]] == f
  {
    assert ListOk(counts, age, clock, f, lists[f]);
    forall p | p in counts && counts[p] == f ensures age[lists[f][0]] <= age[p] {
      assert p in lists[f];
    }
  }

  ghost predicate NoPages(counts: map<nat, nat>) {
    forall p :: p !in counts
  }

  ghost predicate IsLeast(counts: map<nat, nat>, lists: map<nat, seq<nat>>, f: nat) {
    f in lists && lists[f] != [] && forall p | p in counts :: f <= counts[p]
  }

  /** A list is empty exactly when no page has its count. */
  lemma EmptyList(counts: map<nat, nat>, age: map<nat, nat>, clock: nat, lists: map<nat, seq<nat>>, f: nat)
    requires ListsOk(counts, age, clock, lists) && f in lists
    ensures lists[f] == [] <==> forall p | p in counts :: counts[p] != f
  {
    assert ListOk(counts, age, clock, f, lists[f]);
    if lists[f] != [] { assert lists[f][0] in lists[f]; }
  }

  /** The lists after page p went from that of count f to the end of the next one. */
  ghost function Moved(lists: map<nat, seq<nat>>, p: nat, f: nat): map<nat, seq<nat>>
    requires f in lists
  {
    lists[f := Remove(lists[f], p)][f + 1 := (if f + 1 in lists then lists[f + 1] else []) + [p]]
  }

  lemma MoveKeeps(counts: map<nat, nat>, age: map<nat, nat>, clock: nat, lists: map<nat, seq<nat>>, p: nat)
    requires ListsOk(counts, age, clock, lists) && p in counts
    ensures ListsOk(counts[p := counts[p] + 1], age[p := clock], clock + 1, Moved(lists, p, counts[p]))
  {
    var f := counts[p];
    LeaveKeeps(counts, age, clock, lists, p);
    ArriveKeeps(counts - {p}, age - {p}, clock, lists[f := Remove(lists[f], p)], p, f + 1);
    assert (counts - {p})[p := f + 1] == counts[p := f + 1] && (age - {p})[p := clock] == age[p := clock];
  }

  lemma {:induction false} RemoveShorter(s: seq<nat>, p: nat)
    requires p in s
    ensures |Remove(s, p)| == |s| - 1
  {
    if s[0] != p { RemoveShorter(s[1..], p); }
  }

  /** An empty list may go. */
  lemma DropKeeps(counts: map<nat, nat>, age: map<nat, nat>, clock: nat, lists: map<nat, seq<nat>>, f: nat)
    requires ListsOk(counts, age, clock, lists) && f in lists && lists[f] == []
    ensures ListsOk(counts, age, clock, lists - {f})
  {
    var lists' := lists - {f};
    forall g | g in lists' ensures ListOk(counts, age, clock, g, lists'[g]) {
      assert ListOk(counts, age, clock, g, lists[g]);
    }
    assert ListOk(counts, age, clock, f, lists[f]);
  }

  /** An empty list goes with its node, but for that of count 1. */
  ghost function Dropped(lists: map<nat, seq<nat>>, f: nat): map<nat, seq<nat>> {
    if f in lists && lists[f] == [] && f != 1 then lists - {f} else lists
  }

  class LFUReplacer {
    /** map_: each page's count, as its node records it. */
    var counts: map<nat, nat>
    var freqMap: map<nat, FreqNode?>
    const freqOne: FreqNode
    var maxFreq: nat
    var minFreq: nat
    /** When each page reached its count, and the number of such events so far. */
    ghost var age: map<nat, nat>
    ghost var clock: nat
    ghost var lists: map<nat, seq<nat>>
    ghost var repr: set<FreqNode>

    ghost predicate NodeOk(f: nat)
      requires f in freqMap
      reads `freqMap, `lists, `repr, repr
    {
      var n := freqMap[f];
      if n == null then f == 0
      else n in repr && n.freq == f && f in lists && lists[f] == n.objs && n.nObj == |n.objs|
    }

    /** The frequency nodes hold what `lists` says. */
    ghost predicate NodesOk()
      reads `freqMap, `lists, `repr, repr
    {
      && (forall f {:trigger NodeOk(f)} | f in freqMap :: NodeOk(f))
      && (forall f | f in lists :: f in freqMap)
      && 1 in freqMap && freqMap[1] == freqOne
    }

    ghost predicate Valid()
      reads this, repr
    {
      && ListsOk(counts, age, clock, lists) && NodesOk()
      && maxFreq >= 1 && (forall p | p in counts :: counts[p] <= maxFreq)
      && (minFreq == 0 || (minFreq in lists && (NoPages(counts) || IsLeast(counts, lists, minFreq))))
    }

    constructor ()
      ensures Valid() && counts == map[] && fresh(repr)
    {
      counts, age, clock := map[], map[], 0;
      maxFreq, minFreq := 1, 1;
      var one := new FreqNode(1);
      freqOne := one;
      freqMap := map[1 := one];
      lists := map[1 := []];
      repr := {one};
    }
  
    /** remove_obj_from_list and the count beside it. */
    method RemoveObj(f: nat, node: FreqNode, p: nat)
      requires NodesOk() && f in freqMap && node == freqMap[f] && node in repr && p in node.objs
      modifies this`lists, node
      ensures NodesOk() && old(f in lists) && lists == old(lists)[f := Remove(old(lists[f]), p)] && node.nObj == |lists[f]|
    {
      assert NodeOk(f);
      RemoveShorter(node.objs, p);
      node.nObj := node.nObj - 1;
      node.objs := Remove(node.objs, p);
      lists := lists[f := node.objs];
      forall g | g in freqMap ensures NodeOk(g) { assert old(NodeOk(g)); }
    }

    /** append_obj_to_tail and the count beside it. */
    method AppendObj(f: nat, node: FreqNode, p: nat)
      requires NodesOk() && f in freqMap && node == freqMap[f] && node in repr
      modifies this`lists, node
      ensures NodesOk() && old(f in lists) && lists == old(lists)[f := old(lists[f]) + [p]]
    {
      assert NodeOk(f);
      node.objs := node.objs + [p];
      node.nObj := node.nObj + 1;
      lists := lists[f := node.objs];
      forall g | g in freqMap ensures NodeOk(g) { assert old(NodeOk(g)); }
    }

    /** The node in whose list a page is. */
    lemma NodeOf(p: nat)
      requires ListsOk(counts, age, clock, lists) && NodesOk() && p in counts
      ensures var f := counts[p];
              f >= 1 && f in lists && f in freqMap && freqMap[f] != null && freqMap[f] in repr && p in freqMap[f].objs
    {
      assert NodeOk(counts[p]) && ListOk(counts, age, clock, counts[p], lists[counts[p]]);
    }

    /** A new page has the least count there is, 1. */
    method Insert(value: nat) returns (ret: bool)
      requires Valid()
      modifies this, repr
      ensures Valid() && repr == old(repr) && (ret <==> value !in old(counts))
      ensures counts == if ret then old(counts)[value := 1] else old(counts)
      ensures age == if ret then old(age)[value := old(clock)] else old(age)
      ensures clock >= old(clock) && maxFreq == old(maxFreq)
      ensures ret ==> minFreq == 1 && 1 in old(lists) && lists == old(lists)[1 := old(lists)[1] + [value]]
    {
      if value in counts {
        return false;
      }
      ArriveKeeps(counts, age, clock, lists, value, 1);
      assert NodeOk(1);
      minFreq := 1;
      counts := counts[value := 1];
      age, clock := age[value := clock], clock + 1;
      AppendObj(1, freqOne, value);
      ret := true;
    }

    /** update_min_freq: the next non-empty list above the least count, if there is one. */
    method UpdateMinFreq()
      requires NodesOk()
      modifies this`minFreq
      ensures || (minFreq == old(minFreq)
                  && forall f | f in lists && old(minFreq) < f <= maxFreq :: lists[f] == [])
              || (old(minFreq) < minFreq <= maxFreq && minFreq in lists && lists[minFreq] != []
                  && forall f | f in lists && old(minFreq) < f < minFreq :: lists[f] == [])
    {
      var freq := minFreq + 1;
      while freq <= maxFreq
        invariant minFreq == old(minFreq) && freq > minFreq
        invariant forall f | f in lists && minFreq < f < freq :: lists[f] == []
        decreases maxFreq + 1 - freq
      {
        assert freq in freqMap ==> NodeOk(freq);
        if freq in freqMap && freqMap[freq].nObj > 0 {
          minFreq := freq;
          return;
        }
        freq := freq + 1;
      }
    }

    /** The victim is least used, and of the least used the longest at its count. */
    method Victim() returns (ok: bool, victim: nat)
      requires Valid()
      modifies this, repr
      ensures Valid() && repr == old(repr) && (ok <==> !NoPages(old(counts)))
      ensures ok ==> LeastUsed(old(counts), old(age), victim)
      ensures counts == if ok then old(counts) - {victim} else old(counts)
      ensures age == if ok then old(age) - {victim} else old(age)
      ensures clock == old(clock) && maxFreq == old(maxFreq)
      ensures ok ==> victim in old(counts) && var f := old(counts)[victim];
                f in old(lists) && lists == old(lists)[f := Remove(old(lists)[f], victim)] && minFreq == if lists[f] == [] then 0 else f
    {
      var node := GetMinFreqNode();
      if node == null || node.nObj == 0 {
        return false, 0;
      }
      FirstOfLeastList(counts, age, clock, lists, minFreq);
      assert NodeOk(minFreq);
      victim := node.objs[0];
      Leave(minFreq, node, victim);
      if node.nObj == 0 {
        minFreq := 0;
      }
      ok := true;
    }

    /** A page leaves the list it is in, and nothing is known of it any more. */
    method Leave(f: nat, node: FreqNode, p: nat)
      requires ListsOk(counts, age, clock, lists) && NodesOk() && p in counts && counts[p] == f
      requires f in freqMap && node == freqMap[f] && node in repr && p in node.objs
      modifies this`lists, this`counts, this`age, node
      ensures ListsOk(counts, age, clock, lists) && NodesOk()
      ensures counts == old(counts) - {p} && age == old(age) - {p}
      ensures old(f in lists) && lists == old(lists)[f := Remove(old(lists[f]), p)] && node.nObj == |lists[f]|
    {
      assert NodeOk(f);
      LeaveKeeps(counts, age, clock, lists, p);
      RemoveObj(f, node, p);
      counts, age := counts - {p}, age - {p};
    }

    method Erase(value: nat) returns (ret: bool)
      requires Valid()
      modifies this, repr
      ensures Valid() && repr == old(repr) && (ret <==> value in old(counts))
      ensures counts == old(counts) - {value} && age == old(age) - {value} && clock == old(clock)
      ensures ret ==> var f := old(counts)[value];
                f in old(lists) && lists == old(lists)[f := Remove(old(lists)[f], value)] && maxFreq == old(maxFreq)
    {
      if value !in counts {
        return false;
      }
      var freq := counts[value];
      NodeOf(value);
      var node := freqMap[freq];
      Leave(freq, node, value);
      if freq == minFreq && node.nObj == 0 {
        EmptyList(counts, age, clock, lists, freq);
        UpdateMinFreq();
        MinFound(freq);
      }
      ret := true;
    }

    method Promote(value: nat) returns (ret: bool)
      requires Valid()
      modifies this, repr
      ensures Valid() && fresh(repr - old(repr)) && (ret <==> value in old(counts))
      ensures counts == if ret then old(counts)[value := old(counts)[value] + 1] else old(counts)
      ensures age == if ret then old(age)[value := old(clock)] else old(age)
      ensures clock >= old(clock)
      ensures ret ==> var f := old(counts)[value];
                && f in old(lists) && lists == Dropped(Moved(old(lists), value, f), f)
                && maxFreq == if old(maxFreq) < f + 1 then f + 1 else old(maxFreq)
    {
      if value !in counts {
        return false;
      }
      var oldFreq := counts[value];
      var newFreq := oldFreq + 1;
      NodeOf(value);
      var oldNode := freqMap[oldFreq];
      maxFreq := if maxFreq < newFreq then newFreq else maxFreq;
      Recount(value, oldNode);
      assert value in counts;
      Settle(oldFreq, oldNode);
      ret := true;
    }

    /** A known page's count goes up by one and it goes to the end of that count's list. */
    method Recount(value: nat, oldNode: FreqNode)
      requires ListsOk(counts, age, clock, lists) && NodesOk() && value in counts
      requires counts[value] in freqMap && freqMap[counts[value]] == oldNode && oldNode in repr && value in oldNode.objs
      modifies this`counts, this`age, this`clock, this`freqMap, this`lists, this`repr, repr
      ensures ListsOk(counts, age, clock, lists) && NodesOk() && fresh(repr - old(repr)) && clock == old(clock) + 1
      ensures counts == old(counts)[value := old(counts)[value] + 1] && age == old(age)[value := old(clock)]
      ensures var f := old(counts)[value];
              oldNode in repr && f in freqMap && freqMap[f] == oldNode && f in old(lists) && lists == Moved(old(lists), value, f)
    {
      var f := counts[value];
      MoveKeeps(counts, age, clock, lists, value);
      counts, age, clock := counts[value := f + 1], age[value := clock], clock + 1;
      MoveObj(f, oldNode, value);
    }

    /** From the list of count f to the end of the next one. */
    method MoveObj(f: nat, node: FreqNode, p: nat)
      requires NodesOk() && f in freqMap && node == freqMap[f] && node in repr && f in lists && p in node.objs
      modifies this`freqMap, this`lists, this`repr, repr
      ensures NodesOk() && fresh(repr - old(repr)) && node in repr && f in freqMap && freqMap[f] == node
      ensures lists == Moved(old(lists), p, f)
    {
      RemoveObj(f, node, p);
      AddNode(f + 1);
      AppendObj(f + 1, freqMap[f + 1], p);
    }

    /** The end of Promote: what is left to do when the old list has become empty. */
    method Settle(oldFreq: nat, oldNode: FreqNode)
      requires ListsOk(counts, age, clock, lists) && NodesOk() && maxFreq >= 1
      requires forall p | p in counts :: counts[p] <= maxFreq
      requires oldFreq in freqMap && freqMap[oldFreq] == oldNode && oldNode in repr && !NoPages(counts)
      requires minFreq == 0 || (minFreq in lists && (forall p | p in counts :: minFreq <= counts[p])
                                && (lists[minFreq] != [] || minFreq == oldFreq))
      modifies this`minFreq, this`freqMap, this`lists
      ensures Valid() && lists == Dropped(old(lists), oldFreq)
    {
      assert NodeOk(oldFreq);
      if oldNode.nObj == 0 {
        EmptyList(counts, age, clock, lists, oldFreq);
        if minFreq == oldFreq {
          UpdateMinFreq();
          MinFound(oldFreq);
        }
        if oldFreq != 1 {
          DropKeeps(counts, age, clock, lists, oldFreq);
          freqMap, lists := freqMap - {oldFreq}, lists - {oldFreq};
          forall g | g in freqMap ensures NodeOk(g) { assert old(NodeOk(g)); }
        }
      }
    }

    method AddNode(freq: nat)
      requires NodesOk() && freq >= 1
      modifies this`freqMap, this`lists, this`repr
      ensures NodesOk() && fresh(repr - old(repr)) && repr >= old(repr)
      ensures freq in freqMap && freqMap[freq] in repr
      ensures lists == if freq in old(lists) then old(lists) else old(lists)[freq := []]
      ensures forall f | f in old(freqMap) :: f in freqMap && freqMap[f] == old(freqMap)[f]
    {
      assert freq in freqMap ==> NodeOk(freq);
      if freq !in freqMap {
        var node := new FreqNode(freq);
        freqMap := freqMap[freq := node];
        lists := lists[freq := []];
        repr := repr + {node};
        forall g | g in freqMap ensures NodeOk(g) { assert g == freq || old(NodeOk(g)); }
      }
    }

    method GetMinFreqNode() returns (node: FreqNode?)
      requires Valid()
      modifies this`minFreq, this`freqMap
      ensures Valid()
      ensures node == null || node.nObj == 0 <==> NoPages(counts)
      ensures !NoPages(counts) ==>
                minFreq in freqMap && node == freqMap[minFreq] && node != null && IsLeast(counts, lists, minFreq)
    {
      if minFreq == 1 {
        node := freqOne;
        assert NodeOk(1);
      } else {
        if minFreq == 0 {
          UpdateMinFreq();
          MinFound(0);
        }
        if minFreq !in freqMap {
          freqMap := freqMap[minFreq := null];
          forall f | f in freqMap ensures NodeOk(f) { assert f == 0 || old(NodeOk(f)); }
          assert NodesOk();
        }
        assert NodeOk(minFreq);
        node := freqMap[minFreq];
      }
      if minFreq != 0 { EmptyList(counts, age, clock, lists, minFreq); }
    }

    /** What update_min_freq leaves, started below all counts. */
    lemma MinFound(from: nat)
      requires ListsOk(counts, age, clock, lists) && forall p | p in counts :: from < counts[p] <= maxFreq
      requires || (minFreq == from && forall f | f in lists && from < f <= maxFreq :: lists[f] == [])
               || (from < minFreq && minFreq in lists && lists[minFreq] != []
                   && forall f | f in lists && from < f < minFreq :: lists[f] == [])
      ensures if minFreq == from then NoPages(counts) else IsLeast(counts, lists, minFreq)
    {
      forall p | p in counts ensures minFreq != from && minFreq <= counts[p] {
        EmptyList(counts, age, clock, lists, counts[p]);
      }
    }
  }
}
