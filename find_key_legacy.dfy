/** The older parser function `find_key(args)`: the same lookup, but after the
    top level it descends only into the FIRST Hash-valued entry and returns
    whatever that descent yields, `nil` included. */
module FindKeyLegacy {
  import opened Wrappers
  import opened Values
  import Modern = FindKey

  /** Puppet::ParseError raised by the argument checks. */
  datatype ParseError = WrongNumberOfArguments(given: nat) | UnexpectedArgumentType

  /** The position of the first entry whose value is a Hash. */
  function FirstHashIndex(entries: seq<(string, Value)>): (r: Option<nat>)
    ensures r.Some? ==> r.value < |entries| && entries[r.value].1.Hash?
    ensures r.Some? ==> forall j :: 0 <= j < r.value ==> !entries[j].1.Hash?
    ensures r.None? ==> forall j :: 0 <= j < |entries| ==> !entries[j].1.Hash?
  {
    if |entries| == 0 then None
    else if entries[0].1.Hash? then Some(0)
    else match FirstHashIndex(entries[1..])
      case None => None
      case Some(k) => Some(k + 1)
  }

  function FindKey(args: seq<Value>): (r: Result<Value, ParseError>)
    ensures |args| != 2 ==> r == Err(WrongNumberOfArguments(|args|))
    ensures |args| == 2 ==> (r.Err? <==> !args[0].Hash?)
    ensures |args| == 2 && args[0].Hash? ==> r == Ok(ValueOrNil(ChainHit(args[0], args[1])))
  {
    if |args| != 2 then Err(WrongNumberOfArguments(|args|))
    else if !args[0].Hash? then Err(UnexpectedArgumentType)
    else Ok(ValueOrNil(ChainHit(args[0], args[1])))
  }

  /** The search below the argument checks: the key at this level, or else
      the search of the first Hash-valued entry only, or the sentinel when
      there is none. Keys are strings, so a key argument that is not a
      string is never present. */
  function ChainHit(h: Value, key: Value): Modern.Search
    requires h.Hash?
    decreases h
  {
    if key.Str? && HasKey(h, key.s) then Modern.Found(Get(h, key.s))
    else match FirstHashIndex(h.entries)
      case None => Modern.NotFound
      case Some(i) => ChainHit(h.entries[i].1, key)
  }

  function ValueOrNil(hit: Modern.Search): Value {
    if hit.Found? then hit.value else Nil
  }

  /** Whenever the old function finds the key, the newer one finds the same
      value: the chain of first nested hashes is where the newer depth-first
      search looks first. */
  lemma {:induction false} ChainHitAgreesWithNewer(h: Value, key: string)
    requires h.Hash?
    requires ChainHit(h, Str(key)).Found?
    ensures Modern.FindIn(h, key) == ChainHit(h, Str(key))
    decreases h
  {
    if !HasKey(h, key) {
      var i := FirstHashIndex(h.entries).value;
      ChainHitAgreesWithNewer(h.entries[i].1, key);
      SkipNonHashes(h, key, 0, i);
    }
  }

  lemma {:induction false} SkipNonHashes(h: Value, key: string, j: nat, i: nat)
    requires h.Hash? && j <= i < |h.entries|
    requires forall k :: j <= k < i ==> !h.entries[k].1.Hash?
    requires h.entries[i].1.Hash? && Modern.FindIn(h.entries[i].1, key).Found?
    ensures Modern.SearchNested(h, key, j) == Modern.FindIn(h.entries[i].1, key)
    decreases i - j
  {
    if j < i {
      SkipNonHashes(h, key, j + 1, i);
    }
  }

  /** Where the two differ: an empty first nested hash hides the rest from the
      old function, while the newer one goes on to the later siblings. */
  lemma DivergesOnEmptyFirstHash()
    ensures FindKey([Modern.LoopExample(), Str("woopy")]) == Ok(Nil)
    ensures Modern.FindKey([Modern.LoopExample(), Str("woopy")]) == Ok(Str("looped"))
  {
    Modern.SpecExamples();
  }
}
