/**
 * The tag/collection resolver and the model registration step: fetchCollectionNamesForTags
 * builds a map from tag to collection names over the document listing, and processModel turns
 * a Model definition into the payload it posts.
 */
module Knowledge {
  import opened Results
  import opened Seqs
  import opened Config
  import opened Upload

  /** A document of the service's listing: its collection and the names of its tags. */
  datatype Document = Document(collectionName: string, tags: seq<string>)

  // ----- The tag index -----

  /** A Go map read: a missing key reads as the empty list. */
  function Lookup(m: map<string, seq<string>>, k: string): seq<string> {
    if k in m then m[k] else []
  }

  /** Appending names under a key; appending nothing leaves the map (and its key set) unchanged. */
  function Put(m: map<string, seq<string>>, k: string, xs: seq<string>): map<string, seq<string>> {
    if xs == [] then m else m[k := Lookup(m, k) + xs]
  }

  /** The collection name once for every tag of one document that equals `tag`. */
  function TagHits(docTags: seq<string>, tag: string, name: string): seq<string>
    decreases |docTags|
  {
    if docTags == [] then []
    else (if docTags[0] == tag then [name] else []) + TagHits(docTags[1..], tag, name)
  }

  /** Every (document, tag) match for `tag`, in document order. */
  function Matches(docs: seq<Document>, tag: string): seq<string>
    decreases |docs|
  {
    if docs == [] then []
    else TagHits(docs[0].tags, tag, docs[0].collectionName) + Matches(docs[1..], tag)
  }

  /** The outer loop over the requested tags, starting from map `m`. */
  function IndexFrom(tags: seq<string>, docs: seq<Document>, m: map<string, seq<string>>): map<string, seq<string>>
    decreases |tags|
  {
    if tags == [] then m
    else IndexFrom(tags[1..], docs, Put(m, tags[0], Matches(docs, tags[0])))
  }

  /** What fetchCollectionNamesForTags computes once the listing is available. */
  function CollectionIndex(tags: seq<string>, docs: seq<Document>): map<string, seq<string>> {
    IndexFrom(tags, docs, map[])
  }

  lemma PutPut(m: map<string, seq<string>>, k: string, xs: seq<string>, ys: seq<string>)
    ensures Put(Put(m, k, xs), k, ys) == Put(m, k, xs + ys)
  {
    if xs == [] {
      assert xs + ys == ys;
    } else if ys == [] {
      assert xs + ys == xs;
    } else {
      assert (Lookup(m, k) + xs) + ys == Lookup(m, k) + (xs + ys);
    }
  }

  /** fetchCollectionNamesForTags: one listing, then a triple loop appending matching collections. */
  method FetchCollectionNamesForTags(tags: seq<string>, listing: Option<seq<Document>>)
    returns (r: Result<map<string, seq<string>>>)
    ensures listing.None? ==> r == Err(ListingFailed)
    ensures listing.Some? ==> r == Ok(CollectionIndex(tags, listing.value))
  {
    if listing.None? {
      return Err(ListingFailed);
    }
    var documents := listing.value;
    var collections: map<string, seq<string>> := map[];
    var i := 0;
    assert tags[0..] == tags;
    while i < |tags|
      invariant 0 <= i <= |tags|
      invariant CollectionIndex(tags, documents) == IndexFrom(tags[i..], documents, collections)
    {
      assert tags[i..][1..] == tags[i + 1..];
      collections := AppendMatches(collections, tags[i], documents);
      i := i + 1;
    }
    assert tags[i..] == [];
    r := Ok(collections);
  }

  /** The middle loop: every document's hits for one tag, in document order. */
  method AppendMatches(collections0: map<string, seq<string>>, tag: string, documents: seq<Document>)
    returns (collections: map<string, seq<string>>)
    ensures collections == Put(collections0, tag, Matches(documents, tag))
  {
    collections := collections0;
    var j := 0;
    assert documents[0..] == documents;
    while j < |documents|
      invariant 0 <= j <= |documents|
      invariant Put(collections0, tag, Matches(documents, tag)) == Put(collections, tag, Matches(documents[j..], tag))
    {
      assert documents[j..][1..] == documents[j + 1..];
      ghost var atDoc := collections;
      collections := AppendTagHits(collections, tag, documents[j]);
      PutPut(atDoc, tag, TagHits(documents[j].tags, tag, documents[j].collectionName), Matches(documents[j + 1..], tag));
      j := j + 1;
    }
    assert documents[j..] == [];
  }

  /** The inner loop: the document's collection name once per tag of it equal to `tag`. */
  method AppendTagHits(collections0: map<string, seq<string>>, tag: string, doc: Document)
    returns (collections: map<string, seq<string>>)
    ensures collections == Put(collections0, tag, TagHits(doc.tags, tag, doc.collectionName))
  {
    collections := collections0;
    var k := 0;
    assert doc.tags[0..] == doc.tags;
    while k < |doc.tags|
      invariant 0 <= k <= |doc.tags|
      invariant Put(collections0, tag, TagHits(doc.tags, tag, doc.collectionName)) ==
        Put(collections, tag, TagHits(doc.tags[k..], tag, doc.collectionName))
    {
      assert doc.tags[k..][1..] == doc.tags[k + 1..];
      if doc.tags[k] == tag {
        PutPut(collections, tag, [doc.collectionName], TagHits(doc.tags[k + 1..], tag, doc.collectionName));
        collections := collections[tag := Lookup(collections, tag) + [doc.collectionName]];
      } else {
        assert TagHits(doc.tags[k..], tag, doc.collectionName) == TagHits(doc.tags[k + 1..], tag, doc.collectionName);
      }
      k := k + 1;
    }
    assert doc.tags[k..] == [];
  }

  lemma {:induction false} TagHitsMembers(docTags: seq<string>, tag: string, name: string, c: string)
    ensures c in TagHits(docTags, tag, name) <==> c == name && tag in docTags
    decreases |docTags|
  {
    if docTags != [] {
      TagHitsMembers(docTags[1..], tag, name, c);
      assert tag in docTags <==> docTags[0] == tag || tag in docTags[1..];
    }
  }

  /** A collection name is listed for a tag exactly when some document in that collection carries the tag. */
  lemma {:induction false} MatchesMembers(docs: seq<Document>, tag: string, c: string)
    ensures c in Matches(docs, tag) <==>
      exists i :: 0 <= i < |docs| && docs[i].collectionName == c && tag in docs[i].tags
    decreases |docs|
  {
    if docs != [] {
      MatchesMembers(docs[1..], tag, c);
      TagHitsMembers(docs[0].tags, tag, docs[0].collectionName, c);
      if c in Matches(docs[1..], tag) {
        var i :| 0 <= i < |docs[1..]| && docs[1..][i].collectionName == c && tag in docs[1..][i].tags;
        assert docs[i + 1] == docs[1..][i];
      }
      if exists i :: 0 <= i < |docs| && docs[i].collectionName == c && tag in docs[i].tags {
        var i :| 0 <= i < |docs| && docs[i].collectionName == c && tag in docs[i].tags;
        if i > 0 {
          assert docs[1..][i - 1] == docs[i];
        }
      }
    }
  }

  /** A key is present after the loop exactly when it was before or it is requested and matched. */
  lemma {:induction false} IndexFromKeys(tags: seq<string>, docs: seq<Document>, m: map<string, seq<string>>, k: string)
    ensures k in IndexFrom(tags, docs, m) <==> k in m || (k in tags && Matches(docs, k) != [])
    decreases |tags|
  {
    if tags != [] {
      IndexFromKeys(tags[1..], docs, Put(m, tags[0], Matches(docs, tags[0])), k);
      assert k in tags <==> k == tags[0] || k in tags[1..];
    }
  }

  lemma LookupPut(m: map<string, seq<string>>, t: string, xs: seq<string>, k: string)
    ensures Lookup(Put(m, t, xs), k) == if k == t then Lookup(m, k) + xs else Lookup(m, k)
  {
    if xs == [] {
      assert Lookup(m, k) + xs == Lookup(m, k);
    }
  }

  /** A key's list is its old list followed by its matches once per time the tag is requested. */
  lemma {:induction false} IndexFromValue(tags: seq<string>, docs: seq<Document>, m: map<string, seq<string>>, k: string)
    ensures Lookup(IndexFrom(tags, docs, m), k) == Lookup(m, k) + RepeatSeq(Matches(docs, k), Count(tags, k))
    decreases |tags|
  {
    if tags == [] {
      assert Lookup(m, k) + [] == Lookup(m, k);
    } else {
      var m' := Put(m, tags[0], Matches(docs, tags[0]));
      IndexFromValue(tags[1..], docs, m', k);
      LookupPut(m, tags[0], Matches(docs, tags[0]), k);
      if tags[0] == k {
        RepeatOnceMore(Lookup(m, k), Matches(docs, k), Count(tags[1..], k));
      }
    }
  }

  lemma RepeatOnceMore(a: seq<string>, s: seq<string>, n: nat)
    ensures (a + s) + RepeatSeq(s, n) == a + RepeatSeq(s, n + 1)
  {
    assert RepeatSeq(s, n + 1) == s + RepeatSeq(s, n);
  }

  /** The keys of the index are exactly the requested tags that some document carries. */
  lemma CollectionIndexKeys(tags: seq<string>, docs: seq<Document>, k: string)
    ensures k in CollectionIndex(tags, docs) <==>
      k in tags && exists i :: 0 <= i < |docs| && k in docs[i].tags
  {
    IndexFromKeys(tags, docs, map[], k);
    if k in tags && exists i :: 0 <= i < |docs| && k in docs[i].tags {
      var i :| 0 <= i < |docs| && k in docs[i].tags;
      MatchesMembers(docs, k, docs[i].collectionName);
    }
    if Matches(docs, k) != [] {
      MatchesMembers(docs, k, Matches(docs, k)[0]);
    }
  }

  /** A requested tag's list is its matches, repeated once per request of that tag. */
  lemma CollectionIndexValue(tags: seq<string>, docs: seq<Document>, k: string)
    ensures Lookup(CollectionIndex(tags, docs), k) == RepeatSeq(Matches(docs, k), Count(tags, k))
  {
    IndexFromValue(tags, docs, map[], k);
    assert [] + RepeatSeq(Matches(docs, k), Count(tags, k)) == RepeatSeq(Matches(docs, k), Count(tags, k));
  }

  /** A tag requested once maps to its matches, in document order. */
  lemma SingleRequestLookup(tags: seq<string>, docs: seq<Document>, k: string)
    requires Count(tags, k) == 1
    ensures Lookup(CollectionIndex(tags, docs), k) == Matches(docs, k)
  {
    CollectionIndexValue(tags, docs, k);
    assert RepeatSeq(Matches(docs, k), 1) == Matches(docs, k) + [];
    assert Matches(docs, k) + [] == Matches(docs, k);
  }

  // ----- Model registration -----

  /** One element of the payload's meta.knowledge list. */
  datatype KnowledgeEntry = KnowledgeEntry(name: string, kind: string, collectionNames: seq<string>)

  /** The JSON body posted to the model-registration endpoint. */
  datatype ModelPayload = ModelPayload(
    id: string,
    name: string,
    baseModelId: string,
    profileImageUrl: string,
    description: string,
    vision: bool,
    suggestionPrompts: seq<string>,
    knowledge: seq<KnowledgeEntry>,
    params: map<string, string>)

  /** processModel either stops before posting, or posts a payload and meets some outcome. */
  datatype ModelAttempt = NotSent(error: Error) | Sent(payload: ModelPayload, response: HttpOutcome)

  /** processModel returned nil. */
  predicate ModelSucceeded(a: ModelAttempt) {
    a.Sent? && IsOk(a.response)
  }

  /** The tags of the knowledge items, in declared order. */
  function KnowledgeTags(refs: seq<KnowledgeRef>): (tags: seq<string>)
    ensures |tags| == |refs|
    ensures forall i :: 0 <= i < |refs| ==> tags[i] == refs[i].tags
    decreases |refs|
  {
    if refs == [] then [] else [refs[0].tags] + KnowledgeTags(refs[1..])
  }

  function EntryFor(tag: string, collections: map<string, seq<string>>): KnowledgeEntry {
    KnowledgeEntry(tag, "collection", Lookup(collections, tag))
  }

  /** The entry-building loop: an entry per knowledge item whose tag has a non-empty list. */
  function KnowledgeEntries(refs: seq<KnowledgeRef>, collections: map<string, seq<string>>): seq<KnowledgeEntry>
    decreases |refs|
  {
    if refs == [] then []
    else
      var head := if |Lookup(collections, refs[0].tags)| > 0 then [EntryFor(refs[0].tags, collections)] else [];
      head + KnowledgeEntries(refs[1..], collections)
  }

  function EntryNames(entries: seq<KnowledgeEntry>): seq<string>
    decreases |entries|
  {
    if entries == [] then [] else [entries[0].name] + EntryNames(entries[1..])
  }

  /** Nil params are replaced by an empty map, so the payload always carries an object. */
  function ParamsOrEmpty(params: Option<map<string, string>>): map<string, string> {
    match params
    case None => map[]
    case Some(p) => p
  }

  function Payload(m: ModelDef, entries: seq<KnowledgeEntry>): ModelPayload {
    ModelPayload(m.name, m.name, m.baseModelId, m.profileImageUrl, m.description, m.vision,
      m.suggestionPrompts, entries, ParamsOrEmpty(m.params))
  }

  /** What processModel does for a definition, a token, a listing outcome and a registration service. */
  function ModelOutcome(m: ModelDef, token: string, listing: Option<seq<Document>>, register: ModelPayload -> HttpOutcome): ModelAttempt {
    if token == "" then NotSent(MissingToken)
    else if listing.None? then NotSent(ListingFailed)
    else
      var p := Payload(m, KnowledgeEntries(m.knowledge, CollectionIndex(KnowledgeTags(m.knowledge), listing.value)));
      Sent(p, register(p))
  }

  /** The first loop of processModel: collect the knowledge tags in declared order. */
  method CollectTags(refs: seq<KnowledgeRef>) returns (tags: seq<string>)
    ensures tags == KnowledgeTags(refs)
  {
    tags := [];
    var i := 0;
    assert refs[0..] == refs;
    while i < |refs|
      invariant 0 <= i <= |refs|
      invariant KnowledgeTags(refs) == tags + KnowledgeTags(refs[i..])
    {
      assert refs[i..][1..] == refs[i + 1..];
      assert KnowledgeTags(refs[i..]) == [refs[i].tags] + KnowledgeTags(refs[i + 1..]);
      assert tags + ([refs[i].tags] + KnowledgeTags(refs[i + 1..])) ==
        (tags + [refs[i].tags]) + KnowledgeTags(refs[i + 1..]);
      tags := tags + [refs[i].tags];
      i := i + 1;
    }
    assert refs[i..] == [];
    assert tags + [] == tags;
  }

  /** The second loop of processModel: an entry for each item whose tag has collections. */
  method BuildKnowledgeEntries(refs: seq<KnowledgeRef>, collections: map<string, seq<string>>)
    returns (entries: seq<KnowledgeEntry>)
    ensures entries == KnowledgeEntries(refs, collections)
  {
    entries := [];
    var i := 0;
    assert refs[0..] == refs;
    assert entries + KnowledgeEntries(refs, collections) == KnowledgeEntries(refs, collections);
    while i < |refs|
      invariant 0 <= i <= |refs|
      invariant KnowledgeEntries(refs, collections) == entries + KnowledgeEntries(refs[i..], collections)
    {
      assert refs[i..][1..] == refs[i + 1..];
      var knowledge := refs[i];
      ghost var rest := KnowledgeEntries(refs[i + 1..], collections);
      if |Lookup(collections, knowledge.tags)| > 0 {
        var entry := KnowledgeEntry(knowledge.tags, "collection", Lookup(collections, knowledge.tags));
        assert KnowledgeEntries(refs[i..], collections) == [entry] + rest;
        assert entries + ([entry] + rest) == (entries + [entry]) + rest;
        entries := entries + [entry];
      } else {
        assert KnowledgeEntries(refs[i..], collections) == rest;
      }
      i := i + 1;
    }
    assert refs[i..] == [];
    assert entries + [] == entries;
  }

  /** processModel: token guard, params default, tags, index, knowledge entries, then the POST. */
  method ProcessModel(m: ModelDef, token: string, listing: Option<seq<Document>>, register: ModelPayload -> HttpOutcome)
    returns (a: ModelAttempt)
    ensures a == ModelOutcome(m, token, listing, register)
  {
    if token == "" {
      return NotSent(MissingToken);
    }
    var params := if m.params.None? then map[] else m.params.value;
    var tags := CollectTags(m.knowledge);
    var collections := FetchCollectionNamesForTags(tags, listing);
    if collections.Err? {
      return NotSent(collections.error);
    }
    var entries := BuildKnowledgeEntries(m.knowledge, collections.value);
    var payload := ModelPayload(m.name, m.name, m.baseModelId, m.profileImageUrl, m.description, m.vision,
      m.suggestionPrompts, entries, params);
    assert payload == Payload(m, entries);
    a := Sent(payload, register(payload));
  }

  /** The entries are exactly the knowledge items whose list is non-empty, in declared order. */
  lemma {:induction false} KnowledgeEntriesExact(refs: seq<KnowledgeRef>, collections: map<string, seq<string>>)
    ensures forall e :: e in KnowledgeEntries(refs, collections) ==>
      e.kind == "collection" && e.collectionNames == Lookup(collections, e.name) && e.collectionNames != []
    ensures forall i :: 0 <= i < |refs| ==>
      (EntryFor(refs[i].tags, collections) in KnowledgeEntries(refs, collections) <==> Lookup(collections, refs[i].tags) != [])
    ensures IsSubsequence(EntryNames(KnowledgeEntries(refs, collections)), KnowledgeTags(refs))
    decreases |refs|
  {
    if refs != [] {
      KnowledgeEntriesExact(refs[1..], collections);
      var rest := KnowledgeEntries(refs[1..], collections);
      var all := KnowledgeTags(refs[1..]);
      assert KnowledgeTags(refs) == [refs[0].tags] + all;
      forall i | 0 <= i < |refs|
        ensures EntryFor(refs[i].tags, collections) in KnowledgeEntries(refs, collections) <==> Lookup(collections, refs[i].tags) != []
      {
        if i > 0 {
          assert refs[1..][i - 1] == refs[i];
        }
      }
      if |Lookup(collections, refs[0].tags)| > 0 {
        var entries := [EntryFor(refs[0].tags, collections)] + rest;
        assert EntryNames(entries) == [refs[0].tags] + EntryNames(rest);
        assert EntryNames(entries)[1..] == EntryNames(rest);
        assert ([refs[0].tags] + all)[1..] == all;
      } else {
        assert KnowledgeEntries(refs, collections) == rest;
        assert ([refs[0].tags] + all)[1..] == all;
      }
    }
  }

  /**
   * With a token and a listing, the payload is posted, names the model by metadata.name, and
   * carries one entry per declared knowledge item whose tag some listed document carries; each
   * entry lists that tag's matches, once per time the tag is declared.
   */
  lemma ModelPayloadFromListing(m: ModelDef, token: string, docs: seq<Document>, register: ModelPayload -> HttpOutcome)
    requires token != ""
    ensures var a := ModelOutcome(m, token, Some(docs), register);
      && a.Sent?
      && a.payload.id == m.name && a.payload.name == m.name
      && a.payload.params == (if m.params.None? then map[] else m.params.value)
      && (forall e :: e in a.payload.knowledge ==>
            e.kind == "collection" && Matches(docs, e.name) != [] &&
            e.collectionNames == RepeatSeq(Matches(docs, e.name), Count(KnowledgeTags(m.knowledge), e.name)))
      && (forall i :: 0 <= i < |m.knowledge| ==>
            (EntryFor(m.knowledge[i].tags, CollectionIndex(KnowledgeTags(m.knowledge), docs)) in a.payload.knowledge
             <==> Matches(docs, m.knowledge[i].tags) != []))
  {
    var tags := KnowledgeTags(m.knowledge);
    var index := CollectionIndex(tags, docs);
    KnowledgeEntriesExact(m.knowledge, index);
    forall k: string
      ensures Lookup(index, k) == RepeatSeq(Matches(docs, k), Count(tags, k))
      ensures k in tags ==> (Lookup(index, k) != [] <==> Matches(docs, k) != [])
    {
      CollectionIndexValue(tags, docs, k);
      if k in tags {
        CountPositive(tags, k);
        RepeatEmpty(Matches(docs, k), Count(tags, k));
      }
    }
    forall e | e in KnowledgeEntries(m.knowledge, index)
      ensures Matches(docs, e.name) != []
    {
      if Matches(docs, e.name) == [] {
        RepeatEmpty(Matches(docs, e.name), Count(tags, e.name));
      }
    }
    forall i | 0 <= i < |m.knowledge|
      ensures m.knowledge[i].tags in tags
    {
      assert tags[i] == m.knowledge[i].tags;
    }
  }

  lemma {:induction false} CountPositive(s: seq<string>, x: string)
    requires x in s
    ensures Count(s, x) > 0
    decreases |s|
  {
    if s[0] != x {
      assert x in s[1..];
      CountPositive(s[1..], x);
    }
  }

  lemma {:induction false} RepeatEmpty(s: seq<string>, n: nat)
    ensures RepeatSeq(s, n) == [] <==> s == [] || n == 0
    decreases n
  {
    if n > 0 {
      RepeatEmpty(s, n - 1);
    }
  }

  /** An empty token fails before the listing is fetched, whatever the listing would be. */
  lemma EmptyTokenFailsFirst(m: ModelDef, listing: Option<seq<Document>>, register: ModelPayload -> HttpOutcome)
    ensures ModelOutcome(m, "", listing, register) == NotSent(MissingToken)
  {
  }

  /** A single knowledge tag that no document carries: the payload's knowledge is empty and it is still posted. */
  lemma UnmatchedTagStillRegisters(m: ModelDef, token: string, docs: seq<Document>, register: ModelPayload -> HttpOutcome)
    requires token != "" && |m.knowledge| == 1
    requires forall i :: 0 <= i < |docs| ==> m.knowledge[0].tags !in docs[i].tags
    ensures ModelOutcome(m, token, Some(docs), register).Sent?
    ensures ModelOutcome(m, token, Some(docs), register).payload.knowledge == []
  {
    var tag := m.knowledge[0].tags;
    var tags := KnowledgeTags(m.knowledge);
    assert tags == [tag];
    CollectionIndexKeys(tags, docs, tag);
    var index := CollectionIndex(tags, docs);
    assert tag !in index;
    assert m.knowledge[1..] == [];
    assert KnowledgeEntries(m.knowledge, index) == [];
  }
}
