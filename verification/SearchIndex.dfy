/** The in-memory search index (internal/adapters/memory/index.go) and the worker's projection of
    record events into it (internal/application/worker.go). */
module SearchIndex {
  import opened Ports
  import opened Sorting

  datatype Document = Document(resourceID: string, revisionID: string, orgID: string, text: string,
                               labels: seq<string>, attributes: Attributes)

  ghost predicate OnePerResource(list: seq<Document>) {
    forall i, j :: 0 <= i < j < |list| ==> list[i].resourceID != list[j].resourceID
  }

  function Lookup(list: seq<Document>, id: string): Option<Document> {
    if list == [] then None
    else if list[0].resourceID == id then Some(list[0])
    else Lookup(list[1..], id)
  }

  lemma {:induction false} LookupFindsMembers(list: seq<Document>, id: string)
    ensures Lookup(list, id).Some? ==> Lookup(list, id).value in list && Lookup(list, id).value.resourceID == id
    ensures Lookup(list, id).None? ==> forall d :: d in list ==> d.resourceID != id
  {
    if list != [] && list[0].resourceID != id {
      LookupFindsMembers(list[1..], id);
    }
  }

  /** A document that is the only one of its resource is the one found. */
  lemma LookupIsMember(list: seq<Document>, d: Document)
    requires OnePerResource(list) && d in list
    ensures Lookup(list, d.resourceID) == Some(d)
  {
    LookupFindsMembers(list, d.resourceID);
  }

  /** What an organization's list answers after one more document: the new one for its resource,
      the same as before for every other. */
  ghost predicate Stored(list: seq<Document>, list': seq<Document>, d: Document) {
    && OnePerResource(list')
    && forall id :: Lookup(list', id) == if id == d.resourceID then Some(d) else Lookup(list, id)
  }

  lemma ReplacingStores(list: seq<Document>, i: nat, d: Document)
    requires OnePerResource(list) && i < |list| && list[i].resourceID == d.resourceID
    ensures Stored(list, list[i := d], d)
  {
    var list' := list[i := d];
    forall id ensures Lookup(list', id) == if id == d.resourceID then Some(d) else Lookup(list, id) {
      LookupFindsMembers(list, id);
      LookupFindsMembers(list', id);
      if id == d.resourceID {
        assert list'[i] == d;
        LookupIsMember(list', d);
      } else if Lookup(list, id).Some? {
        var j :| 0 <= j < |list| && list[j] == Lookup(list, id).value;
        assert list'[j] == list[j];
        LookupIsMember(list', list[j]);
      }
      assert Lookup(list, id).None? && id != d.resourceID ==> forall j :: 0 <= j < |list| ==> list'[j].resourceID != id;
    }
  }

  lemma AppendingStores(list: seq<Document>, d: Document)
    requires OnePerResource(list) && forall x :: x in list ==> x.resourceID != d.resourceID
    ensures Stored(list, list + [d], d)
  {
    var list' := list + [d];
    assert forall i :: 0 <= i < |list| ==> list[i] in list;
    forall id ensures Lookup(list', id) == if id == d.resourceID then Some(d) else Lookup(list, id) {
      LookupFindsMembers(list, id);
      LookupFindsMembers(list', id);
      if Lookup(list', id).Some? {
        LookupIsMember(list', Lookup(list', id).value);
      }
      if Lookup(list, id).Some? {
        LookupIsMember(list', Lookup(list, id).value);
      }
      assert d in list';
    }
  }

  class Index {
    var docs: map<string, seq<Document>>

    constructor ()
      ensures docs == map[] && Valid()
    {
      docs := map[];
    }

    ghost predicate Valid()
      reads this
    {
      forall org :: org in docs ==> OnePerResource(docs[org])
    }

    function Of(orgID: string): seq<Document>
      reads this
    {
      if orgID in docs then docs[orgID] else []
    }

    /** Replaces the document of the same resource where it stands, else appends. */
    method Upsert(d: Document)
      requires Valid()
      modifies this
      ensures Valid() && Stored(old(Of(d.orgID)), Of(d.orgID), d)
      ensures forall org :: org != d.orgID ==> Of(org) == old(Of(org))
    {
      var list := Of(d.orgID);
      for i := 0 to |list|
        invariant forall x :: x in list[..i] ==> x.resourceID != d.resourceID
        invariant docs == old(docs)
      {
        assert list[..i + 1] == list[..i] + [list[i]];
        if list[i].resourceID == d.resourceID {
          ReplacingStores(list, i, d);
          docs := docs[d.orgID := list[i := d]];
          return;
        }
      }
      assert list[..|list|] == list;
      AppendingStores(list, d);
      docs := docs[d.orgID := list + [d]];
    }

    method Delete(orgID: string, resourceIDs: set<string>)
      requires Valid()
      modifies this
      ensures Valid()
      ensures Of(orgID) == Filter(old(Of(orgID)), (d: Document) => d.resourceID !in resourceIDs)
      ensures forall org :: org != orgID ==> Of(org) == old(Of(org))
    {
      var keep := (d: Document) => d.resourceID !in resourceIDs;
      var list := Of(orgID);
      var out := [];
      for i := 0 to |list|
        invariant out == Filter(list[..i], keep) && docs == old(docs)
      {
        FilterStep(list, i, keep);
        if list[i].resourceID !in resourceIDs {
          out := out + [list[i]];
        }
      }
      assert list[..|list|] == list;
      var differ := (x: Document, y: Document) => x.resourceID != y.resourceID;
      assert SortedBy(differ, list);
      FilterKeepsPairs(list, keep, differ);
      assert forall i, j :: 0 <= i < j < |out| ==> differ(out[i], out[j]);
      docs := docs[orgID := out];
    }

    /** The first documents that match, up to the limit, as resource and revision ids. */
    method SearchCandidates(orgID: string, matches: Document -> bool, limit: int) returns (hits: seq<Document>)
      ensures hits == Cut(Filter(Of(orgID), matches), if limit <= 0 then 12 else limit)
    {
      var max := if limit <= 0 then 12 else limit;
      var list := Of(orgID);
      hits := [];
      for i := 0 to |list|
        invariant hits == Filter(list[..i], matches) && |hits| < max
      {
        FilterStep(list, i, matches);
        if matches(list[i]) {
          hits := hits + [list[i]];
          if |hits| >= max {
            FilterPrefix(list, i + 1, matches);
            return;
          }
        }
      }
      assert list[..|list|] == list;
    }
  }

  /** Deleting a resource leaves no document of it and loses no other. */
  lemma {:induction false} DeletedIsGone(list: seq<Document>, ids: set<string>, id: string)
    requires OnePerResource(list)
    ensures var rest := Filter(list, (d: Document) => d.resourceID !in ids);
            Lookup(rest, id) == if id in ids then None else Lookup(list, id)
  {
    var keep := (d: Document) => d.resourceID !in ids;
    var rest := Filter(list, keep);
    FilterMembers(list, keep);
    LookupFindsMembers(list, id);
    LookupFindsMembers(rest, id);
    if Lookup(rest, id).Some? {
      LookupIsMember(list, Lookup(rest, id).value);
    }
  }

  /* ---------- projection ---------- */

  /** The relayed event of an intake; a payload that does not decode is None. */
  datatype Payload = Payload(eventID: string, orgID: string, resourceID: string, revisionID: string)

  datatype InboxKey = InboxKey(orgID: string, eventID: string)

  /** Undecodable, incomplete or already completed events are dropped. */
  predicate Ignored(data: Option<Payload>, inbox: set<InboxKey>) {
    || data.None? || data.value.orgID == "" || data.value.eventID == ""
    || InboxKey(data.value.orgID, data.value.eventID) in inbox
  }

  datatype Outcome = Skipped | Completed | Failed

  class Projector {
    var records: map<string, map<string, Record>>
    const index: Index
    var inbox: set<InboxKey>
    /** Every completed projection, in order. */
    ghost var history: seq<InboxKey>

    constructor (records: map<string, map<string, Record>>, index: Index)
      ensures this.records == records && this.index == index && inbox == {} && history == []
    {
      this.records, this.index, this.inbox, this.history := records, index, {}, [];
    }

    /** Each event was completed at most once, and the inbox remembers exactly those. */
    ghost predicate Valid()
      reads this, index
    {
      && index.Valid() && Distinct(history)
      && forall k :: k in history <==> k in inbox
    }

    function Find(orgID: string, id: string): Option<Record>
      reads this
    {
      if orgID in records && id in records[orgID] then Some(records[orgID][id]) else None
    }

    /** Delivers one message.  The index write and the inbox write may each fail; the latter, or a
        crash in its place, leaves the document without the inbox entry. */
    method ProjectPayload(data: Option<Payload>, indexFails: bool, inboxFails: bool) returns (r: Outcome)
      requires Valid()
      modifies this`inbox, this`history, index
      ensures Valid()
      ensures old(history) <= history && old(inbox) <= inbox
      ensures r == Completed ==> data.Some? && history == old(history) + [InboxKey(data.value.orgID, data.value.eventID)]
      ensures r != Completed ==> history == old(history) && inbox == old(inbox)
      ensures r == Skipped <==> Ignored(data, old(inbox))
      ensures r == Failed ==> indexFails || inboxFails
                              || (data.value.resourceID != "" && Find(data.value.orgID, data.value.resourceID).None?)
      ensures r == Skipped ==> index.docs == old(index.docs)
      ensures data.Some? ==> forall org, id | org != data.value.orgID || id != data.value.resourceID ::
                Lookup(index.Of(org), id) == Lookup(old(index.Of(org)), id)
      ensures r == Completed && data.value.resourceID != "" ==>
                var rec := Find(data.value.orgID, data.value.resourceID);
                rec.Some? && Lookup(index.Of(data.value.orgID), data.value.resourceID)
                             == if IsPlaceholder(rec.value.state) then Lookup(old(index.Of(data.value.orgID)), data.value.resourceID)
                                else Some(DocumentOf(data.value, rec.value))
    {
      if data.None? || data.value.orgID == "" || data.value.eventID == "" {
        return Skipped;
      }
      var p := data.value;
      var key := InboxKey(p.orgID, p.eventID);
      if key in inbox {
        return Skipped;
      }
      if p.resourceID != "" {
        var rec := Find(p.orgID, p.resourceID);
        if rec.None? {
          return Failed;
        }
        if !IsPlaceholder(rec.value.state) {
          if indexFails {
            return Failed;
          }
          index.Upsert(DocumentOf(p, rec.value));
        }
      }
      if inboxFails {
        return Failed;
      }
      DistinctAppend(history, [key]);
      inbox, history := inbox + {key}, history + [key];
      r := Completed;
    }
  }

  function DocumentOf(p: Payload, r: Record): Document {
    Document(p.resourceID, p.revisionID, p.orgID, r.title, r.labels, map["classification" := r.classification])
  }
}
