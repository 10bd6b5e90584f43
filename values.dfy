/** The Ruby/YAML values that configuration and Puppet function arguments are
    made of. A Hash keeps its insertion order, so it is a sequence of
    key/value pairs; keys are strings. */
module Values {
  import opened Wrappers
  import opened Text

  datatype Value =
    | Nil
    | Bool(b: bool)
    | Int(i: int)
    | Str(s: string)
    | List(items: seq<Value>)
    | Hash(entries: seq<(string, Value)>)

  /** Ruby truthiness: everything except `nil` and `false`. */
  predicate Truthy(v: Value) {
    !(v.Nil? || v == Bool(false))
  }

  /** The position of `key` in a hash's entries. */
  function KeyIndex(entries: seq<(string, Value)>, key: string): (r: Option<nat>)
    ensures r.Some? ==> r.value < |entries| && entries[r.value].0 == key
    ensures r.Some? ==> forall j :: 0 <= j < r.value ==> entries[j].0 != key
    ensures r.None? ==> forall j :: 0 <= j < |entries| ==> entries[j].0 != key
  {
    if |entries| == 0 then None
    else if entries[0].0 == key then Some(0)
    else match KeyIndex(entries[1..], key)
      case None => None
      case Some(k) => Some(k + 1)
  }

  /** `hash.key?(key)`; false for anything that is not a Hash. */
  predicate HasKey(h: Value, key: string) {
    h.Hash? && KeyIndex(h.entries, key).Some?
  }

  /** `hash[key]`: the value stored under `key`, `nil` when it is absent. */
  function Get(h: Value, key: string): (r: Value)
    requires h.Hash?
    ensures HasKey(h, key) ==> r < h
    ensures !HasKey(h, key) ==> r == Nil
  {
    match KeyIndex(h.entries, key)
    case None => Nil
    case Some(i) => h.entries[i].1
  }

  /** `v.to_s` for the scalars; `None` for an Array or a Hash, whose
      `inspect` text is not modelled. */
  function ToS(v: Value): (r: Option<string>)
    ensures r.None? <==> v.List? || v.Hash?
  {
    match v
    case Nil => Some("")
    case Bool(b) => Some(if b then "true" else "false")
    case Int(i) => Some(IntToString(i))
    case Str(s) => Some(s)
    case List(_) => None
    case Hash(_) => None
  }

  /** `items.join(sep)`: nested arrays are joined recursively with the same
      separator, `nil` becomes the empty string; `None` when an item is a
      Hash. */
  function JoinItems(items: seq<Value>, sep: string): (r: Option<string>)
    ensures (forall k :: 0 <= k < |items| ==> items[k].Str?) ==> r.Some?
    decreases items, 0
  {
    if items == [] then Some("")
    else
      match JoinItem(items[0], sep)
      case None => None
      case Some(first) =>
        if |items| == 1 then Some(first)
        else
          match JoinItems(items[1..], sep)
          case None => None
          case Some(rest) => Some(first + sep + rest)
  }

  function JoinItem(v: Value, sep: string): Option<string>
    decreases v, 1
  {
    if v.List? then JoinItems(v.items, sep) else ToS(v)
  }

  /** `Array#flatten`: the items of nested lists take the place of the
      lists, so an empty nested list leaves nothing behind. */
  function Flatten(items: seq<Value>): (r: seq<Value>)
    ensures forall k :: 0 <= k < |r| ==> !r[k].List?
    ensures (forall k :: 0 <= k < |items| ==> !items[k].List?) ==> r == items
    decreases items
  {
    if items == [] then []
    else (if items[0].List? then Flatten(items[0].items) else [items[0]]) + Flatten(items[1..])
  }

  /** Joining plain strings is `Array#join` on strings. */
  lemma {:induction false} JoinItemsOfStrings(names: seq<string>, sep: string)
    ensures JoinItems(Strs(names), sep) == Some(Join(names, sep))
  {
    if |names| > 1 {
      assert Strs(names)[1..] == Strs(names[1..]);
      JoinItemsOfStrings(names[1..], sep);
    }
  }

  function Strs(names: seq<string>): (r: seq<Value>)
    ensures |r| == |names| && forall k :: 0 <= k < |names| ==> r[k] == Str(names[k])
  {
    if names == [] then [] else [Str(names[0])] + Strs(names[1..])
  }
}
