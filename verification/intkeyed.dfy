/** A JavaScript object whose keys are integer ids. Such keys are
    enumerated in ascending numeric order whatever order they were added
    in, so the object is held as a list of entries sorted by key. */
module IntKeyed {
  import opened Basics

  datatype Entry<V> = Entry(key: nat, value: V)

  type Obj<V> = seq<Entry<V>>

  function Keys<V>(o: Obj<V>): set<nat>
  {
    if |o| == 0 then {} else {o[0].key} + Keys(o[1..])
  }

  /** Keys strictly ascend, so each key occurs once. */
  predicate Ordered<V>(o: Obj<V>)
  {
    |o| == 0 || ((forall k :: k in Keys(o[1..]) ==> o[0].key < k) && Ordered(o[1..]))
  }

  /** `o[k]`, `None` standing for `undefined`. */
  function Get<V>(o: Obj<V>, k: nat): (r: Option<V>)
    ensures r.Some? <==> k in Keys(o)
  {
    if |o| == 0 then None
    else if o[0].key == k then Some(o[0].value)
    else Get(o[1..], k)
  }

  /** `o[k] = v`: replaces the value of an existing key, otherwise adds the
      key at its place in the enumeration order. */
  function Put<V>(o: Obj<V>, k: nat, v: V): (r: Obj<V>)
    requires Ordered(o)
    ensures Ordered(r)
    ensures Keys(r) == Keys(o) + {k}
  {
    if |o| == 0 then [Entry(k, v)]
    else if o[0].key == k then
      assert ([Entry(k, v)] + o[1..])[1..] == o[1..];
      [Entry(k, v)] + o[1..]
    else if k < o[0].key then
      assert ([Entry(k, v)] + o)[1..] == o;
      [Entry(k, v)] + o
    else
      var t := Put(o[1..], k, v);
      assert ([o[0]] + t)[1..] == t;
      [o[0]] + t
  }

  /** Reading after writing: the written key holds the new value and every
      other key is unaffected. */
  lemma {:induction false} PutGet<V>(o: Obj<V>, k: nat, v: V, k': nat)
    requires Ordered(o)
    ensures Get(Put(o, k, v), k') == if k' == k then Some(v) else Get(o, k')
    decreases |o|
  {
    if |o| > 0 && o[0].key != k && k > o[0].key {
      PutGet(o[1..], k, v, k');
      assert ([o[0]] + Put(o[1..], k, v))[1..] == Put(o[1..], k, v);
    } else if |o| > 0 && o[0].key == k {
      assert ([Entry(k, v)] + o[1..])[1..] == o[1..];
    } else if |o| > 0 {
      assert ([Entry(k, v)] + o)[1..] == o;
    }
  }

  /** The keys of an ordered object ascend position by position. */
  lemma {:induction false} OrderedAscending<V>(o: Obj<V>)
    requires Ordered(o)
    ensures forall i, j :: 0 <= i < j < |o| ==> o[i].key < o[j].key
    ensures forall i :: 0 <= i < |o| ==> Get(o, o[i].key) == Some(o[i].value)
    ensures forall k :: k in Keys(o) <==> exists i :: 0 <= i < |o| && o[i].key == k
    decreases |o|
  {
    if |o| > 0 {
      var t := o[1..];
      OrderedAscending(t);
      forall i | 1 <= i < |o|
        ensures o[i].key in Keys(t) && o[0].key < o[i].key
      {
        assert o[i] == t[i - 1];
      }
      forall k | k in Keys(o)
        ensures exists i :: 0 <= i < |o| && o[i].key == k
      {
        if k != o[0].key {
          var i :| 0 <= i < |t| && t[i].key == k;
          assert o[i + 1].key == k;
        }
      }
    }
  }

  /** `Object.values(o)`: the values in key order. */
  function Values<V>(o: Obj<V>): (r: seq<V>)
    ensures |r| == |o|
    ensures forall i :: 0 <= i < |o| ==> r[i] == o[i].value
  {
    if |o| == 0 then [] else [o[0].value] + Values(o[1..])
  }
}
