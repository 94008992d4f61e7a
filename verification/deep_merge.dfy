/** `deep_merge`: combine two dicts, letting values of the new dict override
    those of the base dict, except that two dicts under the same key are
    merged recursively. */
module DeepMerge {
  import opened Wrappers
  import opened JsonValue

  /** `deep_merge(base, upd)`: copy `base`, then assign every entry of `upd`
      in order. Written as a left fold over `upd`, the last entry applied last. */
  function Merge(base: seq<Entry>, upd: seq<Entry>): (r: seq<Entry>)
    ensures |base| <= |r| <= |base| + |upd|
    decreases upd
  {
    if |upd| == 0 then base
    else
      var acc := Merge(base, upd[..|upd| - 1]);
      var e := upd[|upd| - 1];
      Put(acc, e.key, MergeAt(Lookup(acc, e.key), e.value))
  }

  /** The value the loop stores for a key of the new dict whose current value
      in the result is `prev` (None when the key is not yet in the result). */
  function MergeAt(prev: Option<Value>, v: Value): (r: Value)
    ensures r.Dict? <==> v.Dict?
    ensures !v.Dict? ==> r == v
    decreases v
  {
    if prev.Some? && prev.value.Dict? && v.Dict? then Dict(Merge(prev.value.entries, v.entries))
    else v
  }

  /** Keys of `nk` that are not in `bk`, in the order of `nk`. */
  function NewKeys(bk: seq<string>, nk: seq<string>): (r: seq<string>)
  {
    if |nk| == 0 then []
    else if nk[|nk| - 1] in bk then NewKeys(bk, nk[..|nk| - 1])
    else NewKeys(bk, nk[..|nk| - 1]) + [nk[|nk| - 1]]
  }

  lemma {:induction false} NewKeysMembers(bk: seq<string>, nk: seq<string>, k: string)
    ensures k in NewKeys(bk, nk) <==> k in nk && k !in bk
  {
    if |nk| > 0 {
      NewKeysMembers(bk, nk[..|nk| - 1], k);
      assert nk == nk[..|nk| - 1] + [nk[|nk| - 1]];
    }
  }

  /** A new dict that lacks a key leaves the merged value of that key as in `base`. */
  lemma {:induction false} MergeLookupAbsent(base: seq<Entry>, upd: seq<Entry>, k: string)
    requires k !in Keys(upd)
    ensures Lookup(Merge(base, upd), k) == Lookup(base, k)
  {
    if |upd| > 0 {
      var init := upd[..|upd| - 1];
      assert Keys(init) == Keys(upd)[..|upd| - 1];
      MergeLookupAbsent(base, init, k);
      var e := upd[|upd| - 1];
      var acc := Merge(base, init);
      PutLookup(acc, e.key, MergeAt(Lookup(acc, e.key), e.value), k);
    }
  }

  /** The value of every key of the merged dict, stated per case of the loop body:
      keys only in `base` keep their value, keys of `upd` take `upd`'s value
      unless both sides hold dicts, which are merged recursively. */
  lemma {:induction false} MergeLookup(base: seq<Entry>, upd: seq<Entry>, k: string)
    requires UniqueKeys(upd)
    ensures Lookup(upd, k).None? ==> Lookup(Merge(base, upd), k) == Lookup(base, k)
    ensures Lookup(upd, k).Some? && !(Lookup(upd, k).value.Dict? && Lookup(base, k).Some? && Lookup(base, k).value.Dict?)
            ==> Lookup(Merge(base, upd), k) == Lookup(upd, k)
    ensures Lookup(upd, k).Some? && Lookup(upd, k).value.Dict? && Lookup(base, k).Some? && Lookup(base, k).value.Dict?
            ==> Lookup(Merge(base, upd), k) == Some(Dict(Merge(Lookup(base, k).value.entries, Lookup(upd, k).value.entries)))
  {
    if Lookup(upd, k).None? {
      LookupDefined(upd, k);
      MergeLookupAbsent(base, upd, k);
    } else {
      MergeLookupPresent(base, upd, k);
    }
  }

  /** A key of the new dict ends up holding what the loop stores for it. */
  lemma {:induction false} MergeLookupPresent(base: seq<Entry>, upd: seq<Entry>, k: string)
    requires UniqueKeys(upd)
    requires Lookup(upd, k).Some?
    ensures Lookup(Merge(base, upd), k) == Some(MergeAt(Lookup(base, k), Lookup(upd, k).value))
  {
    var init := upd[..|upd| - 1];
    var e := upd[|upd| - 1];
    assert upd == init + [e];
    LastKeyFresh(upd);
    var acc := Merge(base, init);
    LookupSnoc(init, e, k);
    PutLookup(acc, e.key, MergeAt(Lookup(acc, e.key), e.value), k);
    if e.key == k {
      LookupDefined(init, k);
      MergeLookupAbsent(base, init, k);
    } else {
      MergeLookupPresent(base, init, k);
    }
  }

  /** In a dict with unique keys, the last key does not occur before it. */
  lemma LastKeyFresh(upd: seq<Entry>)
    requires UniqueKeys(upd)
    requires |upd| > 0
    ensures upd[|upd| - 1].key !in Keys(upd[..|upd| - 1])
    ensures UniqueKeys(upd[..|upd| - 1])
  {
  }

  /** The merged dict lists the keys of `base` in base order, then the keys
      only `upd` has, in `upd`'s order; an overridden key keeps its position. */
  lemma {:induction false} MergeKeys(base: seq<Entry>, upd: seq<Entry>)
    requires UniqueKeys(upd)
    ensures Keys(Merge(base, upd)) == Keys(base) + NewKeys(Keys(base), Keys(upd))
  {
    if |upd| > 0 {
      var init := upd[..|upd| - 1];
      var e := upd[|upd| - 1];
      var acc := Merge(base, init);
      var bk := Keys(base);
      var uk := Keys(upd);
      assert Keys(init) == uk[..|uk| - 1];
      assert uk[|uk| - 1] == e.key;
      MergeKeys(base, init);
      PutKeys(acc, e.key, MergeAt(Lookup(acc, e.key), e.value));
      NewKeysMembers(bk, Keys(init), e.key);
      if e.key in bk {
        assert NewKeys(bk, uk) == NewKeys(bk, Keys(init));
      } else {
        LastKeyFresh(upd);
        assert e.key !in Keys(acc);
        assert NewKeys(bk, uk) == NewKeys(bk, Keys(init)) + [e.key];
      }
    }
  }

  /** The merged dict has exactly the keys of both dicts. */
  lemma MergeKeySet(base: seq<Entry>, upd: seq<Entry>, k: string)
    requires UniqueKeys(upd)
    ensures k in Keys(Merge(base, upd)) <==> k in Keys(base) || k in Keys(upd)
  {
    MergeKeys(base, upd);
    NewKeysMembers(Keys(base), Keys(upd), k);
  }

  /** The merge of two Python dicts is a Python dict. */
  lemma {:induction false} MergeUnique(base: seq<Entry>, upd: seq<Entry>)
    requires UniqueKeys(base)
    ensures UniqueKeys(Merge(base, upd))
  {
    if |upd| > 0 {
      var init := upd[..|upd| - 1];
      var e := upd[|upd| - 1];
      var acc := Merge(base, init);
      MergeUnique(base, init);
      PutUnique(acc, e.key, MergeAt(Lookup(acc, e.key), e.value));
    }
  }

  /** Merging into an empty dict copies the new dict; merging an empty dict changes nothing. */
  lemma {:induction false} MergeIdentity(d: seq<Entry>)
    requires UniqueKeys(d)
    ensures Merge(d, []) == d
    ensures Merge([], d) == d
  {
    if |d| > 0 {
      var init := d[..|d| - 1];
      var e := d[|d| - 1];
      LastKeyFresh(d);
      MergeIdentity(init);
      LookupDefined(init, e.key);
      PutAbsent(init, e.key, e.value);
      assert init + [e] == d;
    }
  }

  /** Merging entries that `base` already holds, each a well-formed value, changes nothing. */
  lemma {:induction false} MergeAbsorbs(base: seq<Entry>, upd: seq<Entry>)
    requires UniqueKeys(base)
    requires forall i :: 0 <= i < |upd| ==> WellFormed(upd[i].value)
    requires forall i :: 0 <= i < |upd| ==> Lookup(base, upd[i].key) == Some(upd[i].value)
    ensures Merge(base, upd) == base
    decreases upd
  {
    if |upd| > 0 {
      var init := upd[..|upd| - 1];
      var e := upd[|upd| - 1];
      MergeAbsorbs(base, init);
      assert Lookup(base, e.key) == Some(e.value);
      if e.value.Dict? {
        MergeSelf(e.value);
      }
      PutSame(base, e.key, e.value);
    }
  }

  /** A well-formed dict merged with itself is itself. */
  lemma {:induction false} MergeSelf(v: Value)
    requires WellFormed(v)
    requires v.Dict?
    ensures Merge(v.entries, v.entries) == v.entries
    decreases v
  {
    var d := v.entries;
    forall i | 0 <= i < |d|
      ensures Lookup(d, d[i].key) == Some(d[i].value)
    {
      LookupAt(d, i);
    }
    MergeAbsorbs(d, d);
  }

  /** Idempotence: `deep_merge(d, d) == d`. */
  lemma MergeIdempotent(d: seq<Entry>)
    requires WellFormed(Dict(d))
    ensures Merge(d, d) == d
  {
    MergeSelf(Dict(d));
  }

  /** The merge of two well-formed dicts is well formed, at every depth. */
  lemma {:induction false} MergeWellFormed(base: seq<Entry>, upd: seq<Entry>)
    requires WellFormed(Dict(base))
    requires WellFormed(Dict(upd))
    ensures WellFormed(Dict(Merge(base, upd)))
    decreases upd
  {
    if |upd| > 0 {
      var init := upd[..|upd| - 1];
      var e := upd[|upd| - 1];
      assert WellFormed(Dict(init));
      MergeWellFormed(base, init);
      var acc := Merge(base, init);
      if Lookup(acc, e.key).Some? {
        LookupWellFormed(acc, e.key);
      }
      MergeAtWellFormed(Lookup(acc, e.key), e.value);
      PutWellFormed(acc, e.key, MergeAt(Lookup(acc, e.key), e.value));
    }
  }

  lemma {:induction false} MergeAtWellFormed(prev: Option<Value>, v: Value)
    requires prev.Some? ==> WellFormed(prev.value)
    requires WellFormed(v)
    ensures WellFormed(MergeAt(prev, v))
    decreases v
  {
    if prev.Some? && prev.value.Dict? && v.Dict? {
      MergeWellFormed(prev.value.entries, v.entries);
    }
  }

  /** The example of `test_deep_merge`: nested dicts merge, other keys are kept or added. */
  lemma MergeExample(base: seq<Entry>, upd: seq<Entry>)
    requires base == [Entry("a", Int(1)), Entry("b", Dict([Entry("x", Int(1)), Entry("y", Int(2))])), Entry("c", Int(3))]
    requires upd == [Entry("b", Dict([Entry("y", Int(200)), Entry("z", Int(300))])), Entry("d", Int(4))]
    ensures Merge(base, upd)
      == [Entry("a", Int(1)), Entry("b", Dict([Entry("x", Int(1)), Entry("y", Int(200)), Entry("z", Int(300))])),
          Entry("c", Int(3)), Entry("d", Int(4))]
  {
    var inner := [Entry("x", Int(1)), Entry("y", Int(2))];
    var innerNew := [Entry("y", Int(200)), Entry("z", Int(300))];
    // the nested dicts
    assert innerNew[..1] == [innerNew[0]] && [innerNew[0]][..0] == [];
    var acc := [Entry("x", Int(1)), Entry("y", Int(200))];
    assert Merge(inner, [innerNew[0]]) == acc;
    assert Lookup(acc, "z") == None by { assert Lookup(acc[1..], "z") == None; }
    assert Put(acc, "z", Int(300)) == acc + [Entry("z", Int(300))] by { PutAbsent(acc, "z", Int(300)); }
    var merged := [Entry("x", Int(1)), Entry("y", Int(200)), Entry("z", Int(300))];
    assert Merge(inner, innerNew) == merged;
    // the outer dicts
    assert upd[..1] == [upd[0]] && [upd[0]][..0] == [];
    var acc' := [Entry("a", Int(1)), Entry("b", Dict(merged)), Entry("c", Int(3))];
    assert Lookup(base, "b") == Some(Dict(inner)) by { assert Lookup(base[1..], "b") == Some(Dict(inner)); }
    assert Put(base, "b", Dict(merged)) == acc' by { assert Put(base[1..], "b", Dict(merged)) == acc'[1..]; }
    assert Merge(base, [upd[0]]) == acc';
    assert Lookup(acc', "d") == None by { assert Lookup(acc'[2..], "d") == None; }
    assert Put(acc', "d", Int(4)) == acc' + [Entry("d", Int(4))] by { PutAbsent(acc', "d", Int(4)); }
  }
}
