/** Lists that keep, of everything put to them, the first of each key, in order. */
module Firsts {

  /** The places, in order, where a key comes up for the first time. */
  function Places<K(==)>(keys: seq<K>): (at: seq<nat>)
    ensures forall a :: 0 <= a < |at| ==> at[a] < |keys|
  {
    if keys == [] then [] else
    var init := keys[..|keys| - 1];
    Places(init) + if keys[|keys| - 1] in init then [] else [|init|]
  }

  /** The elements at these places of their keys. */
  function FirstOfEach<T, K(==)>(all: seq<T>, keys: seq<K>): (kept: seq<T>)
    requires |all| == |keys|
    ensures |kept| == |Places(keys)| && forall a :: 0 <= a < |kept| ==> kept[a] == all[Places(keys)[a]]
  {
    seq(|Places(keys)|, a requires 0 <= a < |Places(keys)| => all[Places(keys)[a]])
  }

  /** The places rise, and a place is among them exactly when its key did not come up before. */
  lemma {:induction false} PlacesExactly<K>(keys: seq<K>)
    ensures forall a, b :: 0 <= a < b < |Places(keys)| ==> Places(keys)[a] < Places(keys)[b]
    ensures forall k: nat :: k < |keys| ==> (k in Places(keys) <==> keys[k] !in keys[..k])
  {
    if keys != [] {
      var init := keys[..|keys| - 1];
      PlacesExactly(init);
      forall k: nat | k < |keys| ensures k in Places(keys) <==> keys[k] !in keys[..k] {
        if k < |init| {
          assert init[k] == keys[k] && init[..k] == keys[..k];
        }
      }
    }
  }

  lemma PlacesNext<K>(keys: seq<K>, key: K)
    ensures Places(keys + [key]) == Places(keys) + if key in keys then [] else [|keys|]
  {
    assert (keys + [key])[..|keys|] == keys;
  }

  /** One more element is kept exactly when its key is new. */
  lemma FirstsNext<T, K>(all: seq<T>, keys: seq<K>, x: T, key: K)
    requires |all| == |keys|
    ensures FirstOfEach(all + [x], keys + [key]) == FirstOfEach(all, keys) + if key in keys then [] else [x]
  {
    PlacesNext(keys, key);
  }
}
