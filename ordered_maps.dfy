/**
 * Python's insertion-ordered `dict` with string keys, and the key order a
 * sequence of insertions produces.
 */
module OrderedMaps {

  /** No string occurs twice. */
  ghost predicate Distinct(s: seq<string>) {
    forall i, j :: 0 <= i < j < |s| ==> s[i] != s[j]
  }

  /** A dict: its keys in insertion order and the value of each key. */
  datatype OrderedMap<V> = OrderedMap(keys: seq<string>, values: map<string, V>) {

    ghost predicate Valid() {
      Distinct(keys) && forall k :: k in values <==> k in keys
    }

    /**
     * `d[k] = v`: a new key goes to the end, an existing key keeps its
     * position and gets the new value.
     */
    function Insert(k: string, v: V): (d: OrderedMap<V>)
      requires Valid()
      ensures d.Valid()
      ensures d.values == values[k := v]
      ensures k in keys ==> d.keys == keys
      ensures k !in keys ==> d.keys == keys + [k]
    {
      if k in values then OrderedMap(keys, values[k := v])
      else OrderedMap(keys + [k], values[k := v])
    }
  }

  function Empty<V>(): (d: OrderedMap<V>)
    ensures d.Valid() && d.keys == []
  {
    OrderedMap([], map[])
  }

  /** The index of the first occurrence of `x`. */
  function FirstIndex(s: seq<string>, x: string): (i: nat)
    requires x in s
    ensures i < |s| && s[i] == x && x !in s[..i]
  {
    if s[0] == x then 0
    else
      var i := 1 + FirstIndex(s[1..], x);
      assert s[..i] == [s[0]] + s[1..][..i - 1];
      i
  }

  /** The index of the last occurrence of `x`. */
  function LastIndex(s: seq<string>, x: string): (i: nat)
    requires x in s
    ensures i < |s| && s[i] == x && x !in s[i + 1..]
  {
    if s[|s| - 1] == x then |s| - 1
    else
      var i := LastIndex(s[..|s| - 1], x);
      assert s[i + 1..] == s[..|s| - 1][i + 1..] + [s[|s| - 1]];
      i
  }

  lemma FirstIndexOfPrefix(s: seq<string>, t: seq<string>, x: string)
    requires x in s
    ensures FirstIndex(s + t, x) == FirstIndex(s, x)
  {
    var i := FirstIndex(s, x);
    assert (s + t)[i] == x;
    assert (s + t)[..i] == s[..i];
  }

  /**
   * The key order of a dict built by inserting the elements of `s` one by
   * one: each distinct element once.
   */
  function Dedup(s: seq<string>): (r: seq<string>)
    ensures Distinct(r)
    ensures forall x :: x in r <==> x in s
    decreases |s|
  {
    if s == [] then []
    else
      var init := s[..|s| - 1];
      var x := s[|s| - 1];
      var d := Dedup(init);
      assert s == init + [x];
      if x in d then d else d + [x]
  }

  /** The keys stand in the order of their first occurrences in `s`. */
  lemma {:induction false} DedupFirstOccurrenceOrder(s: seq<string>)
    ensures forall i, j :: 0 <= i < j < |Dedup(s)| ==> FirstIndex(s, Dedup(s)[i]) < FirstIndex(s, Dedup(s)[j])
    decreases |s|
  {
    if s != [] {
      var init := s[..|s| - 1];
      var x := s[|s| - 1];
      var d := Dedup(init);
      assert s == init + [x];
      DedupFirstOccurrenceOrder(init);
      forall y | y in d
        ensures FirstIndex(s, y) == FirstIndex(init, y)
      {
        FirstIndexOfPrefix(init, [x], y);
      }
      if x !in d {
        assert FirstIndex(s, x) == |init| by {
          assert x !in init;
        }
      }
    }
  }

  /** Inserting more elements never reorders the keys inserted first. */
  lemma {:induction false} DedupPrefix(a: seq<string>, b: seq<string>)
    ensures Dedup(a) <= Dedup(a + b)
    decreases |b|
  {
    if b == [] {
      assert a + b == a;
    } else {
      var b' := b[..|b| - 1];
      DedupPrefix(a, b');
      assert (a + b)[..|a + b| - 1] == a + b';
    }
  }

  /** One more insertion: a new key is appended, a repeated one changes nothing. */
  lemma DedupSnoc(s: seq<string>, x: string)
    ensures Dedup(s + [x]) == if x in s then Dedup(s) else Dedup(s) + [x]
  {
    assert (s + [x])[..|s + [x]| - 1] == s;
  }

  /** Inserting into a dict whose keys came from `s` gives the keys of `s + [k]`. */
  lemma InsertKeys<V>(d: OrderedMap<V>, s: seq<string>, k: string, v: V)
    requires d.Valid() && d.keys == Dedup(s)
    ensures d.Insert(k, v).keys == Dedup(s + [k])
  {
    DedupSnoc(s, k);
  }

  /** Without repetitions, insertion order is the order of `s` itself. */
  lemma {:induction false} DedupOfDistinct(s: seq<string>)
    requires Distinct(s)
    ensures Dedup(s) == s
    decreases |s|
  {
    if s != [] {
      var init := s[..|s| - 1];
      DedupOfDistinct(init);
      assert s == init + [s[|s| - 1]];
      DedupSnoc(init, s[|s| - 1]);
    }
  }

  /** Inserting the same key over and over leaves one key. */
  lemma {:induction false} DedupOfRepeats(s: seq<string>, x: string)
    requires forall y :: y in s ==> y == x
    ensures Dedup(s) == if s == [] then [] else [x]
    decreases |s|
  {
    if s != [] {
      var init := s[..|s| - 1];
      assert forall y :: y in init ==> y in s;
      assert s[|s| - 1] in s;
      DedupOfRepeats(init, x);
      assert Dedup(s) == if x in Dedup(init) then Dedup(init) else Dedup(init) + [x];
    }
  }
}
