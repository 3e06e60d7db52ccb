/** Deduplication: deciding, for each incoming document, what becomes of it. */
module Dedup {
  import opened Wrappers

  /** A document, as far as lookups by field name see it; B is the type of its values. */
  type Doc<B> = map<string, B>

  datatype ConflictStrategy = Skip | Overwrite | Merge

  datatype DedupResult<B> =
    | Insert(doc: Doc<B>)
    | Skipped
    | Replace(doc: Doc<B>)
    | MergeWith(incoming: Doc<B>, existing: Doc<B>)

  /** How the engine compares two values, and how the server matches a filter. */
  datatype Comparison<!B(!new)> = Comparison(same: (B, B) -> bool, matches: (Doc<B>, Doc<B>) -> bool)

  datatype Checker<!B(!new)> = Checker(key: seq<string>, strategy: ConflictStrategy, cmp: Comparison<B>)

  predicate SameField<B(!new)>(cmp: Comparison<B>, a: Doc<B>, b: Doc<B>, k: string) {
    if k in a && k in b then cmp.same(a[k], b[k]) else k !in a && k !in b
  }

  predicate SameKey<B(!new)>(checker: Checker<B>, filter: Doc<B>, existing: Doc<B>) {
    forall k | k in checker.key :: SameField(checker.cmp, filter, existing, k)
  }

  /** The server never misses a document whose key fields the engine finds equal to a filter. */
  ghost predicate MatchesCover<B(!new)>(checker: Checker<B>) {
    forall filter: Doc<B>, existing: Doc<B> ::
      SameKey(checker, filter, existing) ==> checker.cmp.matches(filter, existing)
  }

  /** The key fields of a document, if it has them all. */
  function KeyFields<B>(key: seq<string>, doc: Doc<B>): Option<Doc<B>> {
    if forall k | k in key :: k in doc then Some(map k | k in key && k in doc :: doc[k]) else None
  }

  method BuildDedupFilter<B>(key: seq<string>, doc: Doc<B>) returns (filter: Option<Doc<B>>)
    ensures filter.Some? <==> KeyFields(key, doc).Some?
    ensures filter.Some? ==> filter == KeyFields(key, doc)
  {
    var built: Doc<B> := map[];
    for i := 0 to |key|
      invariant forall k | k in key[..i] :: k in doc
      invariant built == map k | k in key[..i] && k in doc :: doc[k]
    {
      assert key[..i + 1] == key[..i] + [key[i]];
      if key[i] !in doc {
        return None;
      }
      built := built[key[i] := doc[key[i]]];
    }
    assert key[..|key|] == key;
    return Some(built);
  }

  function ResolveConflict<B>(strategy: ConflictStrategy, incoming: Doc<B>, existing: Doc<B>): DedupResult<B> {
    match strategy
    case Skip => Skipped
    case Overwrite => Replace(incoming)
    case Merge => MergeWith(incoming, existing)
  }

  /** Fields of the incoming document win over those of the existing one. */
  method MergeDocuments<B>(incoming: Doc<B>, existing: Doc<B>) returns (merged: Doc<B>)
    ensures merged == existing + incoming
  {
    merged := existing;
    var left := incoming.Keys;
    while left != {}
      invariant left <= incoming.Keys
      invariant merged == existing + (incoming - left)
      decreases left
    {
      var k :| k in left;
      merged := merged[k := incoming[k]];
      left := left - {k};
    }
    assert incoming - left == incoming;
  }

  /** The first document of a collection with the same key fields as a filter. */
  function First<B(!new)>(checker: Checker<B>, filter: Doc<B>, collection: seq<Doc<B>>): Option<Doc<B>> {
    if collection == [] then None
    else if SameKey(checker, filter, collection[0]) then Some(collection[0])
    else First(checker, filter, collection[1..])
  }

  lemma {:induction false} FirstIsFirst<B(!new)>(checker: Checker<B>, filter: Doc<B>, collection: seq<Doc<B>>)
    ensures match First(checker, filter, collection)
      case None => forall i | 0 <= i < |collection| :: !SameKey(checker, filter, collection[i])
      case Some(found) =>
        exists i | 0 <= i < |collection| ::
          && collection[i] == found && SameKey(checker, filter, collection[i])
          && forall j | 0 <= j < i :: !SameKey(checker, filter, collection[j])
  {
    if collection != [] && !SameKey(checker, filter, collection[0]) {
      var rest := collection[1..];
      FirstIsFirst(checker, filter, rest);
      match First(checker, filter, rest) {
        case None =>
          assert forall i | 0 < i < |collection| :: collection[i] == rest[i - 1];
        case Some(found) =>
          var i :| 0 <= i < |rest| && rest[i] == found && SameKey(checker, filter, rest[i])
            && forall j | 0 <= j < i :: !SameKey(checker, filter, rest[j]);
          assert collection[i + 1] == found;
          assert forall j | 0 < j < i + 1 :: collection[j] == rest[j - 1];
      }
    }
  }

  /** What one document, looked up on its own, should become. */
  function Lookup<B(!new)>(checker: Checker<B>, collection: seq<Doc<B>>, doc: Doc<B>): DedupResult<B> {
    if checker.key == [] then Insert(doc)
    else
      match KeyFields(checker.key, doc)
      case None => Insert(doc)
      case Some(filter) =>
        match First(checker, filter, collection)
        case None => Insert(doc)
        case Some(existing) => ResolveConflict(checker.strategy, doc, existing)
  }

  /** What the server returns for a disjunction of filters, in collection order. */
  function Query<B(!new)>(cmp: Comparison<B>, filters: seq<Doc<B>>, collection: seq<Doc<B>>): seq<Doc<B>> {
    if collection == [] then []
    else
      (if exists i | 0 <= i < |filters| :: cmp.matches(filters[i], collection[0]) then [collection[0]] else [])
      + Query(cmp, filters, collection[1..])
  }

  /** Asking for many filters at once hides nothing from any one of them. */
  lemma {:induction false} BatchedQueryFindsTheSame<B(!new)>(checker: Checker<B>, filters: seq<Doc<B>>, filter: Doc<B>,
                                                            collection: seq<Doc<B>>)
    requires MatchesCover(checker) && filter in filters
    ensures First(checker, filter, Query(checker.cmp, filters, collection)) == First(checker, filter, collection)
  {
    if collection != [] {
      BatchedQueryFindsTheSame(checker, filters, filter, collection[1..]);
      var rest := Query(checker.cmp, filters, collection[1..]);
      if SameKey(checker, filter, collection[0]) {
        var i :| 0 <= i < |filters| && filters[i] == filter;
        assert checker.cmp.matches(filters[i], collection[0]);
      }
      assert ([collection[0]] + rest)[1..] == rest && [] + rest == rest;
    }
  }

  /** One query for a whole batch decides each document as a lookup of its own would; the query
      fails the batch only if some document has a complete key. */
  method CheckBatch<B(!new)>(checker: Checker<B>, collection: seq<Doc<B>>, docs: seq<Doc<B>>, queryOk: bool)
    returns (r: Result<seq<DedupResult<B>>, ()>)
    requires MatchesCover(checker)
    ensures r.Failure? <==>
      !queryOk && checker.key != [] && exists i | 0 <= i < |docs| :: KeyFields(checker.key, docs[i]).Some?
    ensures r.Success? ==>
      |r.value| == |docs| && forall i | 0 <= i < |docs| :: r.value[i] == Lookup(checker, collection, docs[i])
  {
    if checker.key == [] {
      return Success(seq(|docs|, i requires 0 <= i < |docs| => Insert(docs[i])));
    }
    var filters: seq<Doc<B>> := [];
    for i := 0 to |docs|
      invariant forall j | 0 <= j < i && KeyFields(checker.key, docs[j]).Some? :: KeyFields(checker.key, docs[j]).value in filters
      invariant filters == [] ==> forall j | 0 <= j < i :: KeyFields(checker.key, docs[j]).None?
      invariant filters != [] ==> exists j | 0 <= j < i :: KeyFields(checker.key, docs[j]).Some?
    {
      var filter := BuildDedupFilter(checker.key, docs[i]);
      if filter.Some? {
        filters := filters + [filter.value];
      }
    }
    var existing: seq<Doc<B>> := [];
    if filters != [] {
      if !queryOk {
        return Failure(());
      }
      existing := Query(checker.cmp, filters, collection);
    }
    var results: seq<DedupResult<B>> := [];
    for i := 0 to |docs|
      invariant |results| == i
      invariant forall j | 0 <= j < i :: results[j] == Lookup(checker, collection, docs[j])
    {
      var filter := BuildDedupFilter(checker.key, docs[i]);
      if filter.None? {
        results := results + [Insert(docs[i])];
        continue;
      }
      BatchedQueryFindsTheSame(checker, filters, filter.value, collection);
      var matching := First(checker, filter.value, existing);
      match matching {
        case None => results := results + [Insert(docs[i])];
        case Some(found) => results := results + [ResolveConflict(checker.strategy, docs[i], found)];
      }
    }
    return Success(results);
  }

  /** The document a replacement writes. */
  function Replacement<B>(r: DedupResult<B>): Doc<B>
    requires r.Replace? || r.MergeWith?
  {
    if r.Replace? then r.doc else r.existing + r.incoming
  }

  /** A replacement is addressed by the incoming document's own key: its filter is never missing. */
  lemma ReplacementKeepsKey<B(!new)>(checker: Checker<B>, collection: seq<Doc<B>>, doc: Doc<B>)
    requires var r := Lookup(checker, collection, doc); r.Replace? || r.MergeWith?
    ensures KeyFields(checker.key, doc).Some?
    ensures KeyFields(checker.key, Replacement(Lookup(checker, collection, doc))) == KeyFields(checker.key, doc)
  {
    var merged := Replacement(Lookup(checker, collection, doc));
    assert forall k | k in checker.key :: k in doc && merged[k] == doc[k];
    assert KeyFields(checker.key, merged).value == KeyFields(checker.key, doc).value;
  }

  /** The filter is the key: it exists exactly if no key field is missing, and then it has those
      fields and no others, with the document's values. */
  lemma FilterIsTheKey<B>(key: seq<string>, doc: Doc<B>)
    ensures KeyFields(key, doc).None? <==> exists k | k in key :: k !in doc
    ensures KeyFields(key, doc).Some? ==>
      var filter := KeyFields(key, doc).value;
      filter.Keys == (set k | k in key) && forall k | k in filter :: k in doc && filter[k] == doc[k]
  {
  }

  /** The stored document has all key fields of the incoming one, with equal values. */
  predicate Conflicts<B(!new)>(checker: Checker<B>, doc: Doc<B>, stored: Doc<B>) {
    forall k | k in checker.key :: k in doc && k in stored && checker.cmp.same(doc[k], stored[k])
  }

  lemma SameKeyIsConflict<B(!new)>(checker: Checker<B>, doc: Doc<B>, stored: Doc<B>)
    requires KeyFields(checker.key, doc).Some?
    ensures SameKey(checker, KeyFields(checker.key, doc).value, stored) <==> Conflicts(checker, doc, stored)
  {
    var filter := KeyFields(checker.key, doc).value;
    assert forall k | k in checker.key :: k in filter && filter[k] == doc[k];
    if SameKey(checker, filter, stored) {
      forall k | k in checker.key ensures k in doc && k in stored && checker.cmp.same(doc[k], stored[k]) {
        assert SameField(checker.cmp, filter, stored, k);
      }
    }
  }

  /** A document without a conflict is inserted. */
  lemma WithoutConflict<B(!new)>(checker: Checker<B>, collection: seq<Doc<B>>, doc: Doc<B>)
    requires || checker.key == [] || (exists k | k in checker.key :: k !in doc)
             || forall i | 0 <= i < |collection| :: !Conflicts(checker, doc, collection[i])
    ensures Lookup(checker, collection, doc) == Insert(doc)
  {
    FilterIsTheKey(checker.key, doc);
    if checker.key != [] && KeyFields(checker.key, doc).Some? {
      FirstIsFirst(checker, KeyFields(checker.key, doc).value, collection);
      forall i | 0 <= i < |collection| {
        SameKeyIsConflict(checker, doc, collection[i]);
      }
    }
  }

  /** The first stored document in conflict decides: it stays, gives way, or is merged with. */
  lemma WithConflict<B(!new)>(checker: Checker<B>, collection: seq<Doc<B>>, doc: Doc<B>, i: nat)
    requires checker.key != [] && i < |collection| && Conflicts(checker, doc, collection[i])
    requires forall j | 0 <= j < i :: !Conflicts(checker, doc, collection[j])
    ensures var verdict := Lookup(checker, collection, doc);
      && (checker.strategy == Skip ==> verdict == Skipped)
      && (checker.strategy == Overwrite ==> verdict == Replace(doc))
      && (checker.strategy == Merge ==> verdict == MergeWith(doc, collection[i]))
  {
    FilterIsTheKey(checker.key, doc);
    assert forall k | k in checker.key :: k in doc;
    var filter := KeyFields(checker.key, doc).value;
    FirstIsFirst(checker, filter, collection);
    forall j | 0 <= j < |collection| {
      SameKeyIsConflict(checker, doc, collection[j]);
    }
    var k :| 0 <= k < |collection| && Some(collection[k]) == First(checker, filter, collection)
      && SameKey(checker, filter, collection[k]) && forall j | 0 <= j < k :: !SameKey(checker, filter, collection[j]);
    assert k == i;
  }

  /** The check does not look inside the batch: two documents with the same complete key are both
      inserted exactly if no document of the collection has that key. */
  lemma BatchDuplicatesBothInsert<B(!new)>(checker: Checker<B>, collection: seq<Doc<B>>, a: Doc<B>, b: Doc<B>)
    requires checker.key != [] && KeyFields(checker.key, a) == KeyFields(checker.key, b) && KeyFields(checker.key, a).Some?
    ensures Lookup(checker, collection, a) == Insert(a) && Lookup(checker, collection, b) == Insert(b)
      <==> forall i | 0 <= i < |collection| :: !SameKey(checker, KeyFields(checker.key, a).value, collection[i])
  {
    FirstIsFirst(checker, KeyFields(checker.key, a).value, collection);
  }

  /** Two different documents that go in under one key, whatever the strategy. */
  lemma DuplicatePair(strategy: ConflictStrategy) returns (checker: Checker<int>, a: Doc<int>, b: Doc<int>)
    ensures checker.key == ["id"] && checker.strategy == strategy && a != b
    ensures KeyFields(checker.key, a) == KeyFields(checker.key, b) && KeyFields(checker.key, a).Some?
    ensures Lookup(checker, [], a) == Insert(a) && Lookup(checker, [], b) == Insert(b)
  {
    checker := Checker(["id"], strategy, Comparison((x: int, y: int) => x == y, (f: Doc<int>, d: Doc<int>) => true));
    a, b := map["id" := 7, "n" := 1], map["id" := 7, "n" := 2];
    assert a["n"] != b["n"];
    assert KeyFields(checker.key, a).value == KeyFields(checker.key, b).value;
    BatchDuplicatesBothInsert(checker, [], a, b);
  }
}
