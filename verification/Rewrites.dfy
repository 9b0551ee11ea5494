/** Rewriting some records of an index in place, one after the other. */
module Rewrites {
  /** The records under the given ids are replaced by what f makes of them. */
  function Rewrite<K(==), R>(records: map<K, R>, ids: set<K>, f: R -> R): map<K, R> {
    map id <- records :: if id in ids then f(records[id]) else records[id]
  }

  lemma RewriteNext<K, R>(records: map<K, R>, ids: set<K>, id: K, f: R -> R)
    requires id in records && id !in ids
    ensures id in Rewrite(records, ids, f) && Rewrite(records, ids, f)[id] == records[id]
    ensures Rewrite(records, ids + {id}, f) == Rewrite(records, ids, f)[id := f(records[id])]
  {}

  /** The loop over a range of an index. */
  method RewriteEach<K(==), R>(records: map<K, R>, ids: set<K>, f: R -> R) returns (r: map<K, R>)
    requires ids <= records.Keys
    ensures r == Rewrite(records, ids, f)
  {
    hide Rewrite;
    var rest := ids;
    r := records;
    assert ids - rest == {};
    assert Rewrite(records, {}, f) == records by { RewriteNone(records, f); }
    while rest != {}
      invariant rest <= ids && r == Rewrite(records, ids - rest, f)
      decreases |rest|
    {
      var id :| id in rest;
      RewriteNext(records, ids - rest, id, f);
      r := r[id := f(r[id])];
      assert ids - (rest - {id}) == ids - rest + {id};
      rest := rest - {id};
    }
    assert ids - rest == ids;
  }

  lemma RewriteNone<K, R>(records: map<K, R>, f: R -> R)
    ensures Rewrite(records, {}, f) == records
  {}

  /** The scan of an evaluator over a range of an index. */
  method AllPass<K(==), R>(records: map<K, R>, ids: set<K>, test: R -> bool) returns (ok: bool)
    requires ids <= records.Keys
    ensures ok <==> forall id <- ids :: test(records[id])
  {
    var rest := ids;
    while rest != {}
      invariant rest <= ids && forall id <- ids - rest :: test(records[id])
      decreases |rest|
    {
      var id :| id in rest;
      if !test(records[id]) {
        return false;
      }
      rest := rest - {id};
    }
    return true;
  }

  /** The scan of an evaluator over a list of ids, each of which is looked up. */
  method AllFound<K(==), R>(records: map<K, R>, ids: seq<K>, test: R -> bool) returns (ok: bool)
    ensures ok <==> forall id <- ids :: id in records && test(records[id])
  {
    for i := 0 to |ids|
      invariant forall id <- ids[..i] :: id in records && test(records[id])
    {
      if ids[i] !in records || !test(records[ids[i]]) {
        return false;
      }
    }
    return true;
  }
}
