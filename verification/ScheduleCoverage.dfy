/** Which states an exploration has reached, and by which moves. */
module ScheduleCoverage {
  import opened Wrappers
  import opened JsonText

  /** Numbers are given out in order, each to one text. */
  ghost predicate Dense(states: map<Text, nat>) {
    && (forall t :: t in states ==> states[t] < |states|)
    && forall t, u :: t in states && u in states && states[t] == states[u] ==> t == u
  }

  /** How often one number is directly followed by another. */
  function Moves(ids: seq<nat>, from: nat, to: nat): nat {
    if |ids| < 2 then 0
    else Moves(ids[..|ids| - 1], from, to) + if ids[|ids| - 2] == from && ids[|ids| - 1] == to then 1 else 0
  }

  function Tally(edges: map<(nat, nat), nat>, from: nat, to: nat): nat {
    if (from, to) in edges then edges[(from, to)] else 0
  }

  /** The table after looking up a text: a new one gets the next number. */
  function Added(states: map<Text, nat>, key: Text): (r: map<Text, nat>)
    ensures key in r
  {
    if key in states then states else states[key := |states|]
  }

  function AllAdded(known: map<Text, nat>, keys: seq<Text>): map<Text, nat> {
    if keys == [] then known else Added(AllAdded(known, keys[..|keys| - 1]), keys[|keys| - 1])
  }

  /** The numbers of the texts, one by one. */
  function NumbersOf(known: map<Text, nat>, keys: seq<Text>): (r: seq<nat>)
    ensures |r| == |keys|
  {
    if keys == [] then []
    else NumbersOf(known, keys[..|keys| - 1]) + [AllAdded(known, keys)[keys[|keys| - 1]]]
  }

  function LastOf(ids: seq<nat>): Option<nat> {
    if ids == [] then None else Some(ids[|ids| - 1])
  }

  /** The counts after going from one number to the next. */
  function Linked(edges: map<(nat, nat), nat>, prior: Option<nat>, id: nat): map<(nat, nat), nat> {
    if prior.None? then edges else edges[(prior.value, id) := Tally(edges, prior.value, id) + 1]
  }

  function AllLinked(edges: map<(nat, nat), nat>, ids: seq<nat>): map<(nat, nat), nat> {
    if ids == [] then edges
    else Linked(AllLinked(edges, ids[..|ids| - 1]), LastOf(ids[..|ids| - 1]), ids[|ids| - 1])
  }

  /** The table stays dense, known texts keep their numbers, and exactly the texts
      looked up are added. */
  ghost predicate Numbered(known: map<Text, nat>, keys: seq<Text>, states: map<Text, nat>) {
    && Dense(states)
    && (forall t :: t in states <==> t in known || t in keys)
    && forall t :: t in known ==> states[t] == known[t]
  }

  lemma {:induction false} OneLarger(states: map<Text, nat>, key: Text, n: nat)
    requires key !in states
    ensures |states[key := n]| == |states| + 1
  {
  }

  lemma {:induction false} AddedDense(states: map<Text, nat>, key: Text)
    requires Dense(states)
    ensures Dense(Added(states, key))
  {
    if key !in states {
      var more := Added(states, key);
      OneLarger(states, key, |states|);
      forall t | t in more ensures more[t] < |more| {
        if t != key { assert states[t] < |states|; }
      }
      forall t, u | t in more && u in more && more[t] == more[u] ensures t == u {
        if t != key { assert states[t] < |states|; }
        if u != key { assert states[u] < |states|; }
      }
    }
  }

  lemma {:induction false} AddedNumbers(known: map<Text, nat>, keys: seq<Text>, states: map<Text, nat>)
    requires keys != [] && Numbered(known, keys[..|keys| - 1], states)
    ensures Numbered(known, keys, Added(states, keys[|keys| - 1]))
  {
    AddedDense(states, keys[|keys| - 1]);
    assert forall t :: t in keys <==> t in keys[..|keys| - 1] || t == keys[|keys| - 1];
  }

  lemma {:induction false} AllAddedNumbers(known: map<Text, nat>, keys: seq<Text>)
    requires Dense(known)
    ensures Numbered(known, keys, AllAdded(known, keys))
  {
    if keys != [] {
      AllAddedNumbers(known, keys[..|keys| - 1]);
      AddedNumbers(known, keys, AllAdded(known, keys[..|keys| - 1]));
    }
  }

  /** Every text's number is the one it has in the end. */
  lemma {:induction false} NumberStays(known: map<Text, nat>, keys: seq<Text>, i: nat)
    requires i < |keys|
    ensures keys[i] in AllAdded(known, keys) && NumbersOf(known, keys)[i] == AllAdded(known, keys)[keys[i]]
  {
    var front := keys[..|keys| - 1];
    if i < |front| {
      NumberStays(known, front, i);
      assert front[i] == keys[i];
    }
  }

  /** Counting step by step adds to each count exactly the moves made. */
  lemma {:induction false} AllLinkedMoves(edges: map<(nat, nat), nat>, ids: seq<nat>, from: nat, to: nat)
    ensures Tally(AllLinked(edges, ids), from, to) == Tally(edges, from, to) + Moves(ids, from, to)
  {
    if ids != [] {
      var front := ids[..|ids| - 1];
      AllLinkedMoves(edges, front, from, to);
      if front != [] { assert front[|front| - 1] == ids[|ids| - 2]; }
    }
  }

  /** The observations of one passed run: new texts are numbered, and each step from
      one observation to the next is counted. */
  method Cover(keys: seq<Text>, known: map<Text, nat>, counted: map<(nat, nat), nat>)
    returns (states: map<Text, nat>, edges: map<(nat, nat), nat>, ghost ids: seq<nat>)
    requires Dense(known)
    ensures Numbered(known, keys, states)
    ensures |ids| == |keys| && forall i :: 0 <= i < |keys| ==> keys[i] in states && ids[i] == states[keys[i]]
    ensures forall from, to :: Tally(edges, from, to) == Tally(counted, from, to) + Moves(ids, from, to)
  {
    states, edges, ids := CoverAll(keys, known, counted);
    AllAddedNumbers(known, keys);
    forall i | 0 <= i < |keys| ensures keys[i] in states && ids[i] == states[keys[i]] {
      NumberStays(known, keys, i);
    }
    forall from, to ensures Tally(edges, from, to) == Tally(counted, from, to) + Moves(ids, from, to) {
      AllLinkedMoves(counted, ids, from, to);
    }
  }

  /** One pass over the texts. */
  method CoverAll(keys: seq<Text>, known: map<Text, nat>, counted: map<(nat, nat), nat>)
    returns (states: map<Text, nat>, edges: map<(nat, nat), nat>, ghost ids: seq<nat>)
    ensures states == AllAdded(known, keys) && ids == NumbersOf(known, keys) && edges == AllLinked(counted, ids)
  {
    states, edges, ids := known, counted, [];
    var prior: Option<nat> := None;
    for n := 0 to |keys|
      invariant states == AllAdded(known, keys[..n]) && ids == NumbersOf(known, keys[..n])
      invariant edges == AllLinked(counted, ids) && prior == LastOf(ids)
    {
      var id;
      states, edges, id := CoverOne(keys[n], states, edges, prior);
      NextNumber(known, keys, n);
      NextLink(counted, ids, id);
      ids, prior := ids + [id], Some(id);
    }
    assert keys[..|keys|] == keys;
  }

  method CoverOne(key: Text, known: map<Text, nat>, counted: map<(nat, nat), nat>, prior: Option<nat>)
    returns (states: map<Text, nat>, edges: map<(nat, nat), nat>, id: nat)
    ensures states == Added(known, key) && id == states[key] && edges == Linked(counted, prior, id)
  {
    states, edges := known, counted;
    if key !in states { states := states[key := |states|]; }
    id := states[key];
    if prior.Some? { edges := edges[(prior.value, id) := Tally(edges, prior.value, id) + 1]; }
  }

  lemma {:induction false} NextNumber(known: map<Text, nat>, keys: seq<Text>, n: nat)
    requires n < |keys|
    ensures AllAdded(known, keys[..n + 1]) == Added(AllAdded(known, keys[..n]), keys[n])
    ensures NumbersOf(known, keys[..n + 1]) == NumbersOf(known, keys[..n]) + [AllAdded(known, keys[..n + 1])[keys[n]]]
  {
    assert keys[..n + 1][..n] == keys[..n];
  }

  lemma {:induction false} NextLink(edges: map<(nat, nat), nat>, ids: seq<nat>, id: nat)
    ensures AllLinked(edges, ids + [id]) == Linked(AllLinked(edges, ids), LastOf(ids), id)
    ensures LastOf(ids + [id]) == Some(id)
  {
    assert (ids + [id])[..|ids|] == ids;
  }
}
