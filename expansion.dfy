/**
 What a resource expansion produces, stated on values.

 Given the count and the optional for-each map of a resource, `InstanceKeys`
 is the set of instance keys the expansion creates vertices for, and
 `Expands` is an independent, key-by-key statement of the same rule. The
 lemmas relate the two, count the keys, and show that the order in which
 keys are emitted does not change what is emitted.
 */
module Expansion {
  import opened Wrappers
  import opened Addrs

  /** The keys of the for-each map; a nil map has none. */
  function ForEachKeys<X>(forEach: Option<map<string, X>>): set<string>
  {
    if forEach.Some? then forEach.value.Keys else {}
  }

  /**
   The "no repetition" case: count unset (negative) and no for-each map at
   all. A present but empty map does NOT select this case.
   */
  predicate IsNoKeyCase<X>(count: int, forEach: Option<map<string, X>>)
  {
    count < 0 && forEach.None?
  }

  /** The string keys made from a set of for-each keys. */
  function StringKeys(names: set<string>): set<InstanceKey>
  {
    set s | s in names :: StringKey(s)
  }

  /** The integer keys 0, 1, ..., count - 1 (none when count <= 0). */
  function IntKeys(count: int): set<InstanceKey>
  {
    set i | 0 <= i < count :: IntKey(i)
  }

  /** The integer keys in the order in which the count loop emits them. */
  function CountKeys(count: int): seq<InstanceKey>
  {
    seq(if count > 0 then count else 0, i => IntKey(i))
  }

  /** The keys an expansion creates one vertex each for. */
  function InstanceKeys<X>(count: int, forEach: Option<map<string, X>>): set<InstanceKey>
  {
    if IsNoKeyCase(count, forEach) then {NoKey}
    else StringKeys(ForEachKeys(forEach)) + IntKeys(count)
  }

  /** Key by key: does an expansion with this count and for-each map create `key`? */
  predicate Expands<X>(count: int, forEach: Option<map<string, X>>, key: InstanceKey)
  {
    match key
    case NoKey => count < 0 && forEach.None?
    case IntKey(i) => 0 <= i < count
    case StringKey(s) => forEach.Some? && s in forEach.value
  }

  /** How many vertices an expansion adds. */
  function ExpectedVertexCount<X>(count: int, forEach: Option<map<string, X>>): nat
  {
    if IsNoKeyCase(count, forEach) then 1
    else |ForEachKeys(forEach)| + (if count > 0 then count else 0)
  }

  /** No element occurs twice. */
  predicate Distinct<T(==)>(s: seq<T>)
  {
    forall i, j :: 0 <= i < j < |s| ==> s[i] != s[j]
  }

  /** The set of elements of a sequence. */
  function Elements<T>(s: seq<T>): set<T>
  {
    set x | x in s
  }

  /** The set definition and the key-by-key rule agree, in both directions. */
  lemma InstanceKeysMembership<X>(count: int, forEach: Option<map<string, X>>, key: InstanceKey)
    ensures key in InstanceKeys(count, forEach) <==> Expands(count, forEach, key)
  {
  }

  lemma {:induction false} IntKeysCardinality(count: int)
    ensures |IntKeys(count)| == if count > 0 then count else 0
  {
    if count > 0 {
      IntKeysCardinality(count - 1);
      assert IntKeys(count) == IntKeys(count - 1) + {IntKey(count - 1)};
    } else {
      assert IntKeys(count) == {};
    }
  }

  lemma {:induction false} StringKeysCardinality(names: set<string>)
    ensures |StringKeys(names)| == |names|
    decreases names
  {
    if names == {} {
      assert StringKeys(names) == {};
    } else {
      var s :| s in names;
      StringKeysCardinality(names - {s});
      assert StringKeys(names) == StringKeys(names - {s}) + {StringKey(s)};
    }
  }

  /**
   The number of keys is 1 in the no-key case and otherwise the size of the
   for-each map plus the count, when positive. So a negative count with a
   present but empty map gives 0, and a count together with a map gives
   the union of both.
   */
  lemma {:induction false} InstanceKeysCardinality<X>(count: int, forEach: Option<map<string, X>>)
    ensures |InstanceKeys(count, forEach)| == ExpectedVertexCount(count, forEach)
  {
    if !IsNoKeyCase(count, forEach) {
      StringKeysCardinality(ForEachKeys(forEach));
      IntKeysCardinality(count);
      assert StringKeys(ForEachKeys(forEach)) !! IntKeys(count);
    }
  }

  /** The count loop emits every integer key once, and no other key. */
  lemma {:induction false} CountKeysEnumerateIntKeys(count: int)
    ensures Distinct(CountKeys(count))
    ensures Elements(CountKeys(count)) == IntKeys(count)
  {
    var ks := CountKeys(count);
    forall k | k in IntKeys(count)
      ensures k in Elements(ks)
    {
      assert ks[k.index] == k;
    }
  }

  /**
   `keys` is what the for-each loop has emitted after visiting `visited`:
   one string key per visited map key, each once.
   */
  predicate ForEachEmitted(keys: seq<InstanceKey>, visited: set<string>)
  {
    && Distinct(keys)
    && (forall j :: 0 <= j < |keys| ==> keys[j].StringKey?)
    && Elements(keys) == StringKeys(visited)
  }

  /** Visiting one more map key and emitting its string key keeps `ForEachEmitted`. */
  lemma {:induction false} ForEachStep(keys: seq<InstanceKey>, visited: set<string>, name: string)
    requires ForEachEmitted(keys, visited)
    requires name !in visited
    ensures ForEachEmitted(keys + [StringKey(name)], visited + {name})
  {
    var ks := keys + [StringKey(name)];
    assert StringKey(name) !in Elements(keys);
    assert Elements(ks) == Elements(keys) + {StringKey(name)};
    assert StringKeys(visited + {name}) == StringKeys(visited) + {StringKey(name)};
  }

  /**
   The for-each keys (each once, in any order) followed by the count keys
   are exactly the instance keys, each once: outside the no-key case the
   two loops together emit every planned key and nothing else.
   */
  lemma {:induction false} StringThenCountKeys<X>(stringKeys: seq<InstanceKey>, count: int, forEach: Option<map<string, X>>)
    requires !IsNoKeyCase(count, forEach)
    requires ForEachEmitted(stringKeys, ForEachKeys(forEach))
    ensures IsExpansion(stringKeys + CountKeys(count), count, forEach)
  {
    var ks := stringKeys + CountKeys(count);
    CountKeysEnumerateIntKeys(count);
    DistinctCardinality(stringKeys);
    StringKeysCardinality(ForEachKeys(forEach));
    forall i, j | 0 <= i < j < |ks|
      ensures ks[i] != ks[j]
    {
      if j < |stringKeys| {
      } else if i >= |stringKeys| {
        assert ks[i] == CountKeys(count)[i - |stringKeys|];
        assert ks[j] == CountKeys(count)[j - |stringKeys|];
      } else {
        assert ks[i].StringKey?;
        assert ks[j] == CountKeys(count)[j - |stringKeys|];
      }
    }
    assert Elements(ks) == Elements(stringKeys) + Elements(CountKeys(count));
    DistinctCardinality(ks);
    InstanceKeysCardinality(count, forEach);
    assert ks[|stringKeys|..] == CountKeys(count);
  }

  /**
   `keys`, in emission order, is a correct expansion: every planned key
   once and nothing else, the no-key instance alone in the no-key case,
   and otherwise the for-each keys first and then 0, 1, ..., count - 1.
   */
  predicate IsExpansion<X>(keys: seq<InstanceKey>, count: int, forEach: Option<map<string, X>>)
  {
    && Distinct(keys)
    && Elements(keys) == InstanceKeys(count, forEach)
    && |keys| == ExpectedVertexCount(count, forEach)
    && (IsNoKeyCase(count, forEach) ==> keys == [NoKey])
    && (!IsNoKeyCase(count, forEach) ==>
          |ForEachKeys(forEach)| <= |keys| && keys[|ForEachKeys(forEach)|..] == CountKeys(count))
  }

  /** The single no-key instance is the expansion of the no-key case. */
  lemma NoKeyExpansion<X>(count: int, forEach: Option<map<string, X>>)
    requires IsNoKeyCase(count, forEach)
    ensures IsExpansion([NoKey], count, forEach)
  {
  }

  /** A sequence without repetitions has as many elements as its length. */
  lemma {:induction false} DistinctCardinality<T>(s: seq<T>)
    requires Distinct(s)
    ensures |Elements(s)| == |s|
  {
    if s != [] {
      var init := s[..|s| - 1];
      DistinctCardinality(init);
      assert Elements(s) == Elements(init) + {s[|s| - 1]};
    }
  }

  /** In a sequence without repetitions every element occurs exactly once. */
  lemma {:induction false} DistinctMultiplicity<T>(s: seq<T>, x: T)
    requires Distinct(s)
    ensures multiset(s)[x] == if x in s then 1 else 0
  {
    if s != [] {
      var init := s[..|s| - 1];
      DistinctMultiplicity(init, x);
      assert s == init + [s[|s| - 1]];
    }
  }

  /**
   Two emission orders without repetitions that cover the same keys are
   permutations of each other (lifted to vertices by
   `ResourceCountTransformer.ExpansionOrderIndependent`).
   */
  lemma {:induction false} KeyOrderIndependent<T>(a: seq<T>, b: seq<T>)
    requires Distinct(a) && Distinct(b)
    requires Elements(a) == Elements(b)
    ensures multiset(a) == multiset(b)
  {
    forall x
      ensures multiset(a)[x] == multiset(b)[x]
    {
      DistinctMultiplicity(a, x);
      DistinctMultiplicity(b, x);
      assert x in a <==> x in Elements(a);
      assert x in b <==> x in Elements(b);
    }
  }

  /** An unset count and no for-each map give the single no-key instance. */
  lemma NoRepetitionGivesNoKey<X>(count: int)
    requires count < 0
    ensures InstanceKeys<X>(count, None) == {NoKey}
  {
  }

  /** An unset count with a present but empty for-each map gives no instance at all. */
  lemma NegativeCountEmptyForEachGivesNothing<X>(count: int)
    requires count < 0
    ensures InstanceKeys<X>(count, Some(map[])) == {}
    ensures ExpectedVertexCount<X>(count, Some(map[])) == 0
  {
  }

  /** A count of 0 and no for-each map give no instance at all. */
  lemma ZeroCountGivesNothing<X>()
    ensures InstanceKeys<X>(0, None) == {}
  {
  }

  /** A count together with a for-each map gives the union of both expansions. */
  lemma CountWithForEachGivesUnion<X>(v: X)
    ensures InstanceKeys(2, Some(map["x" := v])) == {StringKey("x"), IntKey(0), IntKey(1)}
    ensures ExpectedVertexCount(2, Some(map["x" := v])) == 3
  {
  }

}
