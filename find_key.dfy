/** The Puppet 4 function `find_key(hash, key)`: searches a nested hash
    structure for `key` and returns its value, or `nil` when the key is found
    nowhere. A private sentinel separates "absent" from "present with value
    nil", so a key whose value is nil still ends the search. */
module FindKey {
  import opened Wrappers
  import opened Values

  /** The outcome of one nested search: the sentinel, or the value found. */
  datatype Search = NotFound | Found(value: Value)

  /** Why the dispatcher refuses a call (Puppet's ArgumentError). */
  datatype ArgumentError = ExpectsTwoArguments(given: nat) | ExpectsHash | ExpectsString

  /** `find_key_in_hash(hash, key, true)`: the key at this level wins,
      otherwise the Hash-valued entries are searched in insertion order and
      the first hit is returned. */
  function FindIn(h: Value, key: string): Search
    requires h.Hash?
    decreases h, 1
  {
    if HasKey(h, key) then Found(Get(h, key)) else SearchNested(h, key, 0)
  }

  /** The `hash.each` loop of `find_key_in_hash` from entry `i` on: values that
      are not hashes are skipped, an empty or fruitless nested hash lets the
      loop go on to later siblings. */
  function SearchNested(h: Value, key: string, i: nat): Search
    requires h.Hash? && i <= |h.entries|
    decreases h, 0, |h.entries| - i
  {
    if i == |h.entries| then NotFound
    else
      var v := h.entries[i].1;
      var found := if v.Hash? then FindIn(v, key) else NotFound;
      if found.Found? then found else SearchNested(h, key, i + 1)
  }

  /** `find_key(hash, key)` with the dispatcher's argument checks: exactly a
      Hash and a String. At the top level the sentinel becomes `nil`. */
  function FindKey(args: seq<Value>): (r: Result<Value, ArgumentError>)
    ensures r.Ok? <==> |args| == 2 && args[0].Hash? && args[1].Str?
    ensures |args| != 2 ==> r == Err(ExpectsTwoArguments(|args|))
    ensures r.Ok? && Hits(args[0], args[1].s) == [] ==> r.value == Nil
    ensures r.Ok? && Hits(args[0], args[1].s) != [] ==> r.value == Hits(args[0], args[1].s)[0]
  {
    if |args| != 2 then Err(ExpectsTwoArguments(|args|))
    else if !args[0].Hash? then Err(ExpectsHash)
    else if !args[1].Str? then Err(ExpectsString)
    else
      var h, key := args[0], args[1].s;
      FindInMatchesHits(h, key);
      match FindIn(h, key)
      case NotFound => Ok(Nil)
      case Found(v) => Ok(v)
  }

  // ----- independent reference definitions -----

  /** Some hash reachable through Hash-valued entries holds `key`. */
  ghost predicate Occurs(h: Value, key: string)
    requires h.Hash?
    decreases h
  {
    HasKey(h, key)
    || exists i :: 0 <= i < |h.entries| && h.entries[i].1.Hash? && Occurs(h.entries[i].1, key)
  }

  /** Every value a depth-first, insertion-ordered walk meets for `key`, where
      a hash that holds the key itself is not descended into. */
  function Hits(h: Value, key: string): seq<Value>
    requires h.Hash?
    decreases h, 1
  {
    if HasKey(h, key) then [Get(h, key)] else HitsFrom(h, key, 0)
  }

  function HitsFrom(h: Value, key: string, i: nat): seq<Value>
    requires h.Hash? && i <= |h.entries|
    decreases h, 0, |h.entries| - i
  {
    if i == |h.entries| then []
    else
      var v := h.entries[i].1;
      (if v.Hash? then Hits(v, key) else []) + HitsFrom(h, key, i + 1)
  }

  /** The search returns the first hit of the walk, and the sentinel exactly
      when there is none. */
  lemma {:induction false} FindInMatchesHits(h: Value, key: string)
    requires h.Hash?
    ensures FindIn(h, key) == if Hits(h, key) == [] then NotFound else Found(Hits(h, key)[0])
    decreases h, 1
  {
    if !HasKey(h, key) {
      SearchNestedMatchesHits(h, key, 0);
    }
  }

  lemma {:induction false} SearchNestedMatchesHits(h: Value, key: string, i: nat)
    requires h.Hash? && i <= |h.entries|
    ensures SearchNested(h, key, i) == if HitsFrom(h, key, i) == [] then NotFound else Found(HitsFrom(h, key, i)[0])
    decreases h, 0, |h.entries| - i
  {
    if i < |h.entries| {
      var v := h.entries[i].1;
      if v.Hash? {
        FindInMatchesHits(v, key);
      }
      SearchNestedMatchesHits(h, key, i + 1);
    }
  }

  /** The walk has a hit exactly when the key occurs somewhere. */
  lemma {:induction false} OccursIffHits(h: Value, key: string)
    requires h.Hash?
    ensures Occurs(h, key) <==> Hits(h, key) != []
    decreases h, 1
  {
    if !HasKey(h, key) {
      HitsFromIffOccurs(h, key, 0);
    }
  }

  lemma {:induction false} HitsFromIffOccurs(h: Value, key: string, i: nat)
    requires h.Hash? && i <= |h.entries|
    ensures HitsFrom(h, key, i) != [] <==>
      exists j :: i <= j < |h.entries| && h.entries[j].1.Hash? && Occurs(h.entries[j].1, key)
    decreases h, 0, |h.entries| - i
  {
    if i < |h.entries| {
      var v := h.entries[i].1;
      if v.Hash? {
        OccursIffHits(v, key);
      }
      HitsFromIffOccurs(h, key, i + 1);
    }
  }

  /** The cases of the function's own test suite. */
  lemma SpecExamples()
    ensures FindKey([Hash([]), Str("foobar")]) == Ok(Nil)
    ensures FindKey([Hash([("foo", Str("bar"))]), Str("foo")]) == Ok(Str("bar"))
    ensures FindKey([Hash([("foo", Hash([("bar", Str("nested"))]))]), Str("bar")]) == Ok(Str("nested"))
    ensures FindKey([Int(1), Str("")]) == Err(ExpectsHash)
    ensures FindKey([]) == Err(ExpectsTwoArguments(0))
    ensures FindKey([LoopExample(), Str("woopy")]) == Ok(Str("looped"))
    ensures FindKey([NilExample(), Str("c")]) == Ok(Nil)
  {
    assert FindIn(LoopExample(), "woopy") == Found(Str("looped"));
  }

  /** A search that passes an empty nested hash and descends two levels. */
  function LoopExample(): Value {
    Hash([("foo", Hash([])),
          ("bar", Hash([("y", Str("13")),
                        ("nest", Hash([("more", Str("nesting")), ("woopy", Str("looped"))]))]))])
  }

  /** A key present with value nil at the top level, and with a non-nil value
      further down: the nil wins. */
  function NilExample(): Value {
    Hash([("foo", Hash([])),
          ("bar", Hash([("a", Str("b")), ("c", Str("notnil")), ("d", Str("e"))])),
          ("c", Nil)])
  }
}
