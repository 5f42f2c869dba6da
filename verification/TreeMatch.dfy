/**
 tree_match: a pattern matches whatever has its keys with matching values, at every
 depth. What is not an object on both sides must be equal.
 */
module TreeMatch {
  import opened Wrappers

  datatype Value =
    | Atom(text: string)
    | Array(items: seq<Value>)
    | Set(elements: set<Value>)
    | Object(fields: map<string, Value>)

  predicate Matches(pattern: Value, actual: Value) {
    if pattern.Object? && actual.Object? then
      forall key | key in pattern.fields ::
        key in actual.fields && Matches(pattern.fields[key], actual.fields[key])
    else
      pattern == actual
  }

  /** The keys come in any order, and one that fails decides for those that follow. */
  method TreeMatch(pattern: Value, actual: Value) returns (matched: bool)
    ensures matched <==> Matches(pattern, actual)
    decreases pattern
  {
    if !pattern.Object? || !actual.Object? {
      return pattern == actual;
    }
    matched := true;
    var keys := pattern.fields.Keys;
    while keys != {}
      invariant keys <= pattern.fields.Keys
      invariant matched <==> forall key | key in pattern.fields.Keys - keys ::
                  key in actual.fields && Matches(pattern.fields[key], actual.fields[key])
      decreases |keys|
    {
      var key :| key in keys;
      if matched {
        if key !in actual.fields {
          matched := false;
        } else {
          matched := TreeMatch(pattern.fields[key], actual.fields[key]);
        }
      }
      keys := keys - {key};
    }
  }

  // ---------------------------------------------------------------------
  // What it means, path by path
  // ---------------------------------------------------------------------

  type Path = seq<string>

  /** The value a path of keys leads to. */
  function At(v: Value, path: Path): Option<Value>
    decreases |path|
  {
    if path == [] then Some(v)
    else if v.Object? && path[0] in v.fields then At(v.fields[path[0]], path[1..])
    else None
  }

  /** An object of the pattern is an object there, anything else is there as it is. */
  predicate AgreeAt(pattern: Value, actual: Value, path: Path) {
    var p, a := At(pattern, path), At(actual, path);
    p.Some? ==> a.Some? && if p.value.Object? then a.value.Object? else a == p
  }

  lemma {:induction false} MatchesAgree(pattern: Value, actual: Value, path: Path)
    requires Matches(pattern, actual)
    ensures AgreeAt(pattern, actual, path)
    decreases |path|
  {
    if path != [] && pattern.Object? && actual.Object? && path[0] in pattern.fields {
      MatchesAgree(pattern.fields[path[0]], actual.fields[path[0]], path[1..]);
    }
  }

  lemma {:induction false} AgreementMatches(pattern: Value, actual: Value)
    requires forall path :: AgreeAt(pattern, actual, path)
    ensures Matches(pattern, actual)
    decreases pattern
  {
    assert AgreeAt(pattern, actual, []);
    if pattern.Object? {
      forall key | key in pattern.fields
        ensures key in actual.fields && Matches(pattern.fields[key], actual.fields[key])
      {
        assert AgreeAt(pattern, actual, [key]) && At(pattern.fields[key], [key][1..]).Some?;
        forall path ensures AgreeAt(pattern.fields[key], actual.fields[key], path) {
          assert AgreeAt(pattern, actual, [key] + path);
          assert ([key] + path)[1..] == path;
        }
        AgreementMatches(pattern.fields[key], actual.fields[key]);
      }
    }
  }

  /** Matching is agreement on every path of the pattern: nothing else of the actual value counts. */
  lemma MatchesIffPathsAgree(pattern: Value, actual: Value)
    ensures Matches(pattern, actual) <==> forall path :: AgreeAt(pattern, actual, path)
  {
    if Matches(pattern, actual) {
      forall path ensures AgreeAt(pattern, actual, path) {
        MatchesAgree(pattern, actual, path);
      }
    } else if forall path :: AgreeAt(pattern, actual, path) {
      AgreementMatches(pattern, actual);
    }
  }

  // ---------------------------------------------------------------------
  // An order on nested values
  // ---------------------------------------------------------------------

  lemma {:induction false} Reflexive(v: Value)
    ensures Matches(v, v)
    decreases v
  {
    if v.Object? {
      forall key | key in v.fields ensures Matches(v.fields[key], v.fields[key]) {
        Reflexive(v.fields[key]);
      }
    }
  }

  lemma {:induction false} Transitive(a: Value, b: Value, c: Value)
    requires Matches(a, b) && Matches(b, c)
    ensures Matches(a, c)
    decreases a
  {
    if a.Object? && b.Object? && c.Object? {
      forall key | key in a.fields ensures key in c.fields && Matches(a.fields[key], c.fields[key]) {
        Transitive(a.fields[key], b.fields[key], c.fields[key]);
      }
    }
  }

  lemma {:induction false} Antisymmetric(a: Value, b: Value)
    requires Matches(a, b) && Matches(b, a)
    ensures a == b
    decreases a
  {
    if a.Object? && b.Object? {
      forall key | key in a.fields ensures key in b.fields && a.fields[key] == b.fields[key] {
        Antisymmetric(a.fields[key], b.fields[key]);
      }
      assert a.fields.Keys == b.fields.Keys;
      assert a.fields == b.fields;
    }
  }

  /** The value with one key of the object at `path` taken away. */
  function Drop(v: Value, path: Path, key: string): Value
    decreases |path|
  {
    if !v.Object? then v
    else if path == [] then Object(v.fields - {key})
    else if path[0] in v.fields then Object(v.fields[path[0] := Drop(v.fields[path[0]], path[1..], key)])
    else v
  }

  /** The value with one key of the object at `path` set. */
  function Put(v: Value, path: Path, key: string, added: Value): Value
    decreases |path|
  {
    if !v.Object? then v
    else if path == [] then Object(v.fields[key := added])
    else if path[0] in v.fields then Object(v.fields[path[0] := Put(v.fields[path[0]], path[1..], key, added)])
    else v
  }

  lemma {:induction false} DropIsBelow(v: Value, path: Path, key: string)
    ensures Matches(Drop(v, path, key), v)
    decreases |path|
  {
    if v.Object? {
      forall k | k in v.fields ensures Matches(v.fields[k], v.fields[k]) {
        Reflexive(v.fields[k]);
      }
      if path != [] && path[0] in v.fields {
        DropIsBelow(v.fields[path[0]], path[1..], key);
      }
    }
  }

  lemma {:induction false} PutIsAbove(v: Value, path: Path, key: string, added: Value)
    requires At(v, path + [key]).None?
    ensures Matches(v, Put(v, path, key, added))
    decreases |path|
  {
    if v.Object? {
      forall k | k in v.fields ensures Matches(v.fields[k], v.fields[k]) {
        Reflexive(v.fields[k]);
      }
      if path == [] {
        assert At(v, [key]).None? && (key in v.fields ==> At(v.fields[key], []).Some?);
        assert [key][1..] == [];
      } else if path[0] in v.fields {
        assert (path + [key])[1..] == path[1..] + [key];
        PutIsAbove(v.fields[path[0]], path[1..], key, added);
      }
    }
  }

  /** A match survives a pattern that asks for less and an actual value that has more, at any depth. */
  lemma MatchesSurvives(pattern: Value, actual: Value, dropped: Path, gone: string, at: Path, key: string, added: Value)
    requires Matches(pattern, actual) && At(actual, at + [key]).None?
    ensures Matches(Drop(pattern, dropped, gone), Put(actual, at, key, added))
  {
    DropIsBelow(pattern, dropped, gone);
    PutIsAbove(actual, at, key, added);
    Transitive(Drop(pattern, dropped, gone), pattern, actual);
    Transitive(Drop(pattern, dropped, gone), actual, Put(actual, at, key, added));
  }

  // ---------------------------------------------------------------------
  // Every match comes from taking keys away
  // ---------------------------------------------------------------------

  datatype Cut = Cut(path: Path, key: string)

  function DropAll(v: Value, cuts: seq<Cut>): Value
    decreases |cuts|
  {
    if cuts == [] then v else DropAll(Drop(v, cuts[0].path, cuts[0].key), cuts[1..])
  }

  /** The same cuts, made below one key of an object. */
  function Under(key: string, cuts: seq<Cut>): seq<Cut>
    decreases |cuts|
  {
    if cuts == [] then [] else [Cut([key] + cuts[0].path, cuts[0].key)] + Under(key, cuts[1..])
  }

  lemma {:induction false} DropAllUnder(v: Value, key: string, cuts: seq<Cut>)
    requires v.Object? && key in v.fields
    ensures DropAll(v, Under(key, cuts)) == Object(v.fields[key := DropAll(v.fields[key], cuts)])
    decreases |cuts|
  {
    if cuts == [] {
      assert v.fields[key := v.fields[key]] == v.fields;
    } else {
      var inner := Drop(v.fields[key], cuts[0].path, cuts[0].key);
      var path := [key] + cuts[0].path;
      assert path[1..] == cuts[0].path;
      var v' := Object(v.fields[key := inner]);
      assert Drop(v, path, cuts[0].key) == v';
      DropAllUnder(v', key, cuts[1..]);
      assert v'.fields[key := DropAll(inner, cuts[1..])] == v.fields[key := DropAll(inner, cuts[1..])];
    }
  }

  lemma {:induction false} DropAllConcat(v: Value, first: seq<Cut>, second: seq<Cut>)
    ensures DropAll(v, first + second) == DropAll(DropAll(v, first), second)
    decreases |first|
  {
    if first == [] {
      assert first + second == second;
    } else {
      assert (first + second)[1..] == first[1..] + second;
      DropAllConcat(Drop(v, first[0].path, first[0].key), first[1..], second);
    }
  }

  lemma {:induction false} DropAllIsBelow(v: Value, cuts: seq<Cut>)
    ensures Matches(DropAll(v, cuts), v)
    decreases |cuts|
  {
    if cuts == [] {
      Reflexive(v);
    } else {
      var less := Drop(v, cuts[0].path, cuts[0].key);
      DropAllIsBelow(less, cuts[1..]);
      DropIsBelow(v, cuts[0].path, cuts[0].key);
      Transitive(DropAll(v, cuts), less, v);
    }
  }

  /** Outside `keys` the two objects are already the same; the cuts align them on `keys`, one key after the other. */
  lemma {:induction false} CutsFor(pattern: Value, actual: Value, keys: set<string>) returns (cuts: seq<Cut>)
    requires pattern.Object? && actual.Object? && Matches(pattern, actual) && keys <= actual.fields.Keys
    requires forall key | key in actual.fields && key !in keys ::
              key in pattern.fields && actual.fields[key] == pattern.fields[key]
    ensures DropAll(actual, cuts) == pattern
    decreases pattern, 0, |keys|
  {
    if keys == {} {
      assert actual.fields.Keys == pattern.fields.Keys;
      assert actual.fields == pattern.fields;
      return [];
    }
    var key :| key in keys;
    var first: seq<Cut>;
    var next: Value;
    if key in pattern.fields {
      var inner := CutsBetween(pattern.fields[key], actual.fields[key]);
      first, next := Under(key, inner), Object(actual.fields[key := pattern.fields[key]]);
      DropAllUnder(actual, key, inner);
      Reflexive(pattern.fields[key]);
    } else {
      first, next := [Cut([], key)], Object(actual.fields - {key});
    }
    assert DropAll(actual, first) == next;
    var second := CutsFor(pattern, next, keys - {key});
    DropAllConcat(actual, first, second);
    cuts := first + second;
  }

  lemma {:induction false} CutsBetween(pattern: Value, actual: Value) returns (cuts: seq<Cut>)
    requires Matches(pattern, actual)
    ensures DropAll(actual, cuts) == pattern
    decreases pattern, 1, 0
  {
    if pattern.Object? && actual.Object? {
      cuts := CutsFor(pattern, actual, actual.fields.Keys);
    } else {
      cuts := [];
    }
  }

  /** The patterns that match a value are exactly those got from it by dropping keys of nested objects. */
  lemma MatchesIffCutFrom(pattern: Value, actual: Value)
    ensures Matches(pattern, actual) <==> exists cuts :: DropAll(actual, cuts) == pattern
  {
    if Matches(pattern, actual) {
      var cuts := CutsBetween(pattern, actual);
    } else if cuts :| DropAll(actual, cuts) == pattern {
      DropAllIsBelow(actual, cuts);
    }
  }
}
