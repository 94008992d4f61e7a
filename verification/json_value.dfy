/** JSON-like values as produced by `json.loads` and by a dataclass's
    `to_dict`, with Python's insertion-ordered `dict` modelled as a sequence
    of entries. Assigning to a key that is present keeps its position;
    assigning to a new key appends it. */
module JsonValue {
  import opened Wrappers

  datatype Value =
    | Null
    | Bool(b: bool)
    | Int(i: int)
    | Str(s: string)
    | List(items: seq<Value>)
    | Dict(entries: seq<Entry>)

  datatype Entry = Entry(key: string, value: Value)

  /** The keys of a dict in iteration order. */
  function Keys(es: seq<Entry>): (ks: seq<string>)
    ensures |ks| == |es|
    ensures forall i :: 0 <= i < |es| ==> ks[i] == es[i].key
  {
    seq(|es|, i requires 0 <= i < |es| => es[i].key)
  }

  /** Python's dict invariant: no key occurs twice. */
  ghost predicate UniqueKeys(es: seq<Entry>) {
    forall i, j :: 0 <= i < j < |es| ==> es[i].key != es[j].key
  }

  /** Every dict nested anywhere in the value has unique keys. */
  ghost predicate WellFormed(v: Value) {
    match v
    case List(items) => forall i :: 0 <= i < |items| ==> WellFormed(items[i])
    case Dict(es) => UniqueKeys(es) && forall i :: 0 <= i < |es| ==> WellFormed(es[i].value)
    case _ => true
  }

  /** `d[k]` when `k in d`, None otherwise. */
  function Lookup(es: seq<Entry>, k: string): (r: Option<Value>) {
    if |es| == 0 then None
    else if es[0].key == k then Some(es[0].value)
    else Lookup(es[1..], k)
  }

  /** `d[k] = v`: replace the value in place if `k` is present, else append. */
  function Put(es: seq<Entry>, k: string, v: Value): (r: seq<Entry>)
    ensures |es| <= |r| <= |es| + 1
  {
    if |es| == 0 then [Entry(k, v)]
    else if es[0].key == k then [Entry(k, v)] + es[1..]
    else [es[0]] + Put(es[1..], k, v)
  }

  lemma {:induction false} LookupDefined(es: seq<Entry>, k: string)
    ensures Lookup(es, k).Some? <==> k in Keys(es)
  {
    if |es| > 0 {
      LookupDefined(es[1..], k);
      assert Keys(es) == [es[0].key] + Keys(es[1..]);
    }
  }

  /** In a dict with unique keys, looking up the key of an entry finds that entry's value. */
  lemma {:induction false} LookupAt(es: seq<Entry>, i: int)
    requires UniqueKeys(es)
    requires 0 <= i < |es|
    ensures Lookup(es, es[i].key) == Some(es[i].value)
  {
    if i > 0 {
      LookupAt(es[1..], i - 1);
    }
  }

  /** Looking up in a dict extended by one trailing entry. */
  lemma {:induction false} LookupSnoc(es: seq<Entry>, e: Entry, k: string)
    ensures Lookup(es + [e], k) ==
      if Lookup(es, k).Some? then Lookup(es, k)
      else if e.key == k then Some(e.value)
      else None
  {
    if |es| > 0 {
      assert (es + [e])[1..] == es[1..] + [e];
      LookupSnoc(es[1..], e, k);
    }
  }

  /** `d[k] = v` keeps the key order: an existing key stays where it is, a new key goes last. */
  lemma {:induction false} PutKeys(es: seq<Entry>, k: string, v: Value)
    ensures Keys(Put(es, k, v)) == if k in Keys(es) then Keys(es) else Keys(es) + [k]
  {
    if |es| == 0 {
      assert Keys(Put(es, k, v)) == [k];
    } else if es[0].key == k {
      assert Keys(es)[0] == k;
      assert Keys(Put(es, k, v)) == Keys(es);
    } else {
      var rest := Put(es[1..], k, v);
      assert Put(es, k, v) == [es[0]] + rest;
      PutKeys(es[1..], k, v);
      KeysCons(es[0], rest);
      KeysCons(es[0], es[1..]);
      assert [es[0]] + es[1..] == es;
    }
  }

  lemma KeysCons(e: Entry, es: seq<Entry>)
    ensures Keys([e] + es) == [e.key] + Keys(es)
  {
  }

  /** After `d[k] = v`, `d[k]` is `v` and every other key reads as before. */
  lemma {:induction false} PutLookup(es: seq<Entry>, k: string, v: Value, k': string)
    ensures Lookup(Put(es, k, v), k') == if k' == k then Some(v) else Lookup(es, k')
  {
    if |es| > 0 && es[0].key != k {
      PutLookup(es[1..], k, v, k');
    }
  }

  /** `d[k] = v` keeps keys unique. */
  lemma PutUnique(es: seq<Entry>, k: string, v: Value)
    requires UniqueKeys(es)
    ensures UniqueKeys(Put(es, k, v))
  {
    PutKeys(es, k, v);
    var r := Put(es, k, v);
    forall i, j | 0 <= i < j < |r|
      ensures r[i].key != r[j].key
    {
      assert Keys(r)[i] == r[i].key && Keys(r)[j] == r[j].key;
    }
  }

  /** Assigning the value a key already holds changes nothing. */
  lemma {:induction false} PutSame(es: seq<Entry>, k: string, v: Value)
    requires Lookup(es, k) == Some(v)
    ensures Put(es, k, v) == es
  {
    if es[0].key != k {
      PutSame(es[1..], k, v);
    }
  }

  /** Assigning a key that is absent appends it. */
  lemma {:induction false} PutAbsent(es: seq<Entry>, k: string, v: Value)
    requires k !in Keys(es)
    ensures Put(es, k, v) == es + [Entry(k, v)]
  {
    if |es| > 0 {
      KeysCons(es[0], es[1..]);
      assert [es[0]] + es[1..] == es;
      assert es[0].key != k;
      PutAbsent(es[1..], k, v);
      assert Put(es, k, v) == [es[0]] + (es[1..] + [Entry(k, v)]);
    }
  }

  /** A value read from a well-formed dict is well formed. */
  lemma {:induction false} LookupWellFormed(es: seq<Entry>, k: string)
    requires WellFormed(Dict(es))
    requires Lookup(es, k).Some?
    ensures WellFormed(Lookup(es, k).value)
  {
    if es[0].key != k {
      assert WellFormed(Dict(es[1..]));
      LookupWellFormed(es[1..], k);
    }
  }

  /** Assigning a well-formed value into a well-formed dict keeps it well formed. */
  lemma {:induction false} PutWellFormed(es: seq<Entry>, k: string, v: Value)
    requires WellFormed(Dict(es))
    requires WellFormed(v)
    ensures WellFormed(Dict(Put(es, k, v)))
  {
    PutUnique(es, k, v);
    if |es| > 0 && es[0].key != k {
      assert WellFormed(Dict(es[1..]));
      PutWellFormed(es[1..], k, v);
      var r := Put(es, k, v);
      forall i | 0 <= i < |r| ensures WellFormed(r[i].value) {
        if i > 0 {
          assert r[i] == Put(es[1..], k, v)[i - 1];
        }
      }
    }
  }
}
