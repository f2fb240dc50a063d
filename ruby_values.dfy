/** Ruby values as the library manipulates them: symbols, strings, regexps,
    arrays and insertion-ordered hashes, with `nil` and `false` the only
    falsy values. A Ruby Hash is an association list whose keys are kept
    distinct by `Store`, which behaves like `hash[key] = value`. */
module RubyValues {

  datatype Option<+T> = None | Some(value: T) {
    function GetOr(default: T): T {
      match this
      case Some(v) => v
      case None => default
    }
  }

  /** The exceptions the modelled code can raise. `NoMethodError` is what
      Ruby raises when a method is called on `nil`. */
  datatype Error =
    | NoMethodError(methodName: string)
    | TypeError(message: string)
    | NameError(message: string)

  datatype Result<+T> = Ok(value: T) | Err(error: Error)

  /** Hash keys: the library only uses symbols and strings as keys. */
  datatype Key = KSym(name: string) | KStr(name: string)

  datatype Entry<K, V> = Entry(key: K, val: V)

  /** An insertion-ordered dictionary (Ruby Hash). */
  type Dict<K, V> = seq<Entry<K, V>>

  datatype Value =
    | Nil
    | Bool(b: bool)
    | Int(i: int)
    | Str(s: string)
    | Sym(name: string)
    | Regexp(source: string)
    | Arr(elems: seq<Value>)
    | Hash(entries: Dict<Key, Value>)
      /** a domain object (an ActiveModel record): its class name and what its
          `to_partial_path` returns */
    | Obj(className: string, partialPath: string)
    | Class(name: string)

  /** Ruby truthiness: everything but `nil` and `false`. */
  predicate Truthy(v: Value) {
    !(v.Nil? || v == Bool(false))
  }

  /** The name of `v.class`. */
  function ClassName(v: Value): string {
    match v
    case Nil => "NilClass"
    case Bool(b) => if b then "TrueClass" else "FalseClass"
    case Int(_) => "Integer"
    case Str(_) => "String"
    case Sym(_) => "Symbol"
    case Regexp(_) => "Regexp"
    case Arr(_) => "Array"
    case Hash(_) => "Hash"
    case Obj(c, _) => c
    case Class(_) => "Class"
  }

  function Keys<K, V>(d: Dict<K, V>): (ks: seq<K>)
    ensures |ks| == |d|
  {
    if d == [] then [] else [d[0].key] + Keys(d[1..])
  }

  predicate HasKey<K(==), V>(d: Dict<K, V>, k: K) {
    d != [] && (d[0].key == k || HasKey(d[1..], k))
  }

  /** No key occurs twice: the shape every Ruby Hash has. */
  predicate DistinctKeys<K(==), V>(d: Dict<K, V>) {
    d == [] || (!HasKey(d[1..], d[0].key) && DistinctKeys(d[1..]))
  }

  /** `hash[k]`: the value stored under `k`, if any. */
  function Get<K(==), V>(d: Dict<K, V>, k: K): (r: Option<V>)
    ensures r.Some? <==> HasKey(d, k)
  {
    if d == [] then None
    else if d[0].key == k then Some(d[0].val)
    else Get(d[1..], k)
  }

  /** `hash[k] = v`: an existing key keeps its position and takes the new
      value, a new key is appended; no other key is touched. */
  function Store<K(==,!new), V>(d: Dict<K, V>, k: K, v: V): (r: Dict<K, V>)
    ensures Get(r, k) == Some(v)
    ensures forall k' :: k' != k ==> Get(r, k') == Get(d, k')
    ensures forall k' :: HasKey(r, k') <==> HasKey(d, k') || k' == k
    ensures HasKey(d, k) ==> Keys(r) == Keys(d)
    ensures !HasKey(d, k) ==> r == d + [Entry(k, v)]
    ensures DistinctKeys(d) ==> DistinctKeys(r)
  {
    if d == [] then [Entry(k, v)]
    else if d[0].key == k then [Entry(k, v)] + d[1..]
    else
      var tail := Store(d[1..], k, v);
      assert ([d[0]] + tail)[1..] == tail;
      assert (d + [Entry(k, v)])[1..] == d[1..] + [Entry(k, v)];
      [d[0]] + tail
  }

  /** What `hash[k]` returns is the value of an entry of the hash. */
  lemma {:induction false} GetEntry<K, V>(d: Dict<K, V>, k: K)
    ensures Get(d, k).Some? ==> Entry(k, Get(d, k).value) in d
  {
    if d != [] && d[0].key != k {
      GetEntry(d[1..], k);
    }
  }

  /** Every entry after `hash[k] = v` was already there or is the new one. */
  lemma {:induction false} StoreEntries<K(!new), V>(d: Dict<K, V>, k: K, v: V)
    ensures forall e :: e in Store(d, k, v) ==> e in d || e == Entry(k, v)
  {
    if d != [] && d[0].key != k {
      StoreEntries(d[1..], k, v);
      assert Store(d, k, v) == [d[0]] + Store(d[1..], k, v);
    }
  }

  /** The value of the last entry of `es` whose key is `k`. */
  function LastWith<K(==), V>(es: Dict<K, V>, k: K): (r: Option<V>)
    ensures r.Some? <==> HasKey(es, k)
  {
    if es == [] then None
    else
      var later := LastWith(es[1..], k);
      if later.Some? then later
      else if es[0].key == k then Some(es[0].val)
      else None
  }

  /** Storing the entries of `es` into `d` one after the other, as a loop of
      `hash[key] = value` does. */
  function StoreAll<K(==,!new), V>(d: Dict<K, V>, es: Dict<K, V>): Dict<K, V>
    decreases es
  {
    if es == [] then d
    else StoreAll(Store(d, es[0].key, es[0].val), es[1..])
  }

  /** What `StoreAll` promises: the last entry for a key wins, no key is
      lost, none is invented, and keys stay distinct. */
  lemma {:induction false} StoreAllSpec<K(!new), V>(d: Dict<K, V>, es: Dict<K, V>)
    ensures forall k :: Get(StoreAll(d, es), k) == (if HasKey(es, k) then LastWith(es, k) else Get(d, k))
    ensures forall k :: HasKey(StoreAll(d, es), k) <==> HasKey(d, k) || HasKey(es, k)
    ensures DistinctKeys(d) ==> DistinctKeys(StoreAll(d, es))
    decreases es
  {
    if es != [] {
      StoreAllSpec(Store(d, es[0].key, es[0].val), es[1..]);
    }
  }

  /** Storing entries with distinct keys, none of them already present,
      appends them in order: so rebuilding a Hash entry by entry gives the
      same Hash back. */
  lemma {:induction false} StoreAllFresh<K(!new), V>(d: Dict<K, V>, es: Dict<K, V>)
    requires DistinctKeys(es)
    requires forall k :: HasKey(es, k) ==> !HasKey(d, k)
    ensures StoreAll(d, es) == d + es
    decreases es
  {
    if es != [] {
      var d' := d + [es[0]];
      StoreFreshStep(d, es);
      StoreAllFresh(d', es[1..]);
      assert d' + es[1..] == d + es;
    }
  }

  /** One step of `StoreAllFresh`: the first entry is appended, and the
      remaining keys are still absent. */
  lemma StoreFreshStep<K(!new), V>(d: Dict<K, V>, es: Dict<K, V>)
    requires es != [] && DistinctKeys(es)
    requires forall k :: HasKey(es, k) ==> !HasKey(d, k)
    ensures StoreAll(d, es) == StoreAll(d + [es[0]], es[1..])
    ensures DistinctKeys(es[1..])
    ensures forall k :: HasKey(es[1..], k) ==> !HasKey(d + [es[0]], k)
  {
    var k0 := es[0].key;
    assert !HasKey(d, k0);
    var d' := Store(d, k0, es[0].val);
    assert d' == d + [es[0]];
    forall k | HasKey(es[1..], k)
      ensures !HasKey(d', k)
    {
      assert HasKey(es, k) && k != k0;
    }
  }

  /** The entries of `d` whose key is not `k`, in order. */
  function Without<K(==,!new), V>(d: Dict<K, V>, k: K): (r: Dict<K, V>)
    ensures !HasKey(r, k)
    ensures forall k' :: k' != k ==> Get(r, k') == Get(d, k')
    ensures !HasKey(d, k) ==> r == d
  {
    if d == [] then []
    else
      var tail := Without(d[1..], k);
      if d[0].key == k then tail
      else
        assert ([d[0]] + tail)[1..] == tail;
        [d[0]] + tail
  }

  lemma {:induction false} HasKeyAt<K, V>(d: Dict<K, V>, k: K)
    ensures HasKey(d, k) <==> exists j :: 0 <= j < |d| && d[j].key == k
  {
    if d != [] {
      HasKeyAt(d[1..], k);
      if HasKey(d[1..], k) {
        var j :| 0 <= j < |d[1..]| && d[1..][j].key == k;
        assert d[j + 1].key == k;
      }
      if exists j :: 0 <= j < |d| && d[j].key == k {
        var j :| 0 <= j < |d| && d[j].key == k;
        if j > 0 {
          assert d[1..][j - 1].key == k;
        }
      }
    }
  }

  /** `LastWith` picks the entry at the last index carrying the key. */
  lemma {:induction false} LastWithAt<K, V>(es: Dict<K, V>, k: K, i: nat)
    requires i < |es| && es[i].key == k
    requires forall j :: i < j < |es| ==> es[j].key != k
    ensures LastWith(es, k) == Some(es[i].val)
  {
    HasKeyAt(es[1..], k);
    if i == 0 {
      assert !HasKey(es[1..], k);
    } else {
      LastWithAt(es[1..], k, i - 1);
    }
  }

  /** Keys that differ at every pair of indices are distinct. */
  lemma {:induction false} DistinctByIndex<K, V>(d: Dict<K, V>)
    requires forall i, j :: 0 <= i < j < |d| ==> d[i].key != d[j].key
    ensures DistinctKeys(d)
  {
    if d != [] {
      HasKeyAt(d[1..], d[0].key);
      DistinctByIndex(d[1..]);
    }
  }

  /** `hash[k]` for the key at index `i`, when no earlier entry has it. */
  lemma {:induction false} GetAt<K, V>(d: Dict<K, V>, i: nat)
    requires i < |d|
    requires forall j :: 0 <= j < i ==> d[j].key != d[i].key
    ensures Get(d, d[i].key) == Some(d[i].val)
  {
    if i > 0 {
      assert d[1..][i - 1] == d[i];
      GetAt(d[1..], i - 1);
    }
  }
}
