/** The record commit of an intake (internal/ingest/ingest.go): generated observations never
    overwrite what an authoritative record says. */
module SourceOfTruth {
  import opened Ports
  import Mapping

  type Records = map<string, Record>

  const AUTHORITY := "authority"
  const SOURCE_AUTHORITY := "source_authority"
  const SOURCE_OF_TRUTH: string := "source_of_truth"
  const USER_CLAIM: string := "user_claim"

  /** Attributes that a generated write may not replace. */
  predicate Guarded(key: string) {
    key == AUTHORITY || key == SOURCE_AUTHORITY || key == "trust" || key == "visibility_ref"
  }

  /** Attributes that mark a placeholder. */
  predicate Marker(key: string) {
    key == "placeholder" || key == "ensured"
  }

  function WithoutMarkers(attributes: Attributes): Attributes {
    map k | k in attributes && !Marker(k) :: attributes[k]
  }

  function Attribute(r: Record, key: string): string {
    if key in r.attributes then r.attributes[key] else ""
  }

  function AuthorityOf(r: Record): string {
    if Attribute(r, AUTHORITY) != "" then Attribute(r, AUTHORITY) else Attribute(r, SOURCE_AUTHORITY)
  }

  predicate IsSourceOfTruth(r: Record) {
    Mapping.EqualFold(AuthorityOf(r), SOURCE_OF_TRUTH)
  }

  predicate WouldOverwrite(existing: Record, incoming: Record) {
    || IsSourceOfTruth(incoming)
    || (incoming.title != "" && existing.title != "" && incoming.title != existing.title)
    || (incoming.classification != "" && existing.classification != "" && incoming.classification != existing.classification)
  }

  function Preserved(existing: Record, incoming: Record): Record {
    incoming.(title := existing.title, classification := existing.classification, labels := existing.labels,
              kind := existing.kind, externalID := existing.externalID, sourceSystem := existing.sourceSystem,
              attributes := incoming.attributes + GuardedOf(existing.attributes))
  }

  function GuardedOf(attributes: Attributes): Attributes {
    map k | k in attributes && Guarded(k) :: attributes[k]
  }

  lemma CopyingOne(attributes: Attributes, keys: set<string>, k: string)
    requires k in attributes && k in keys
    ensures GuardedOf(attributes - (keys - {k}))
         == if Guarded(k) then GuardedOf(attributes - keys)[k := attributes[k]] else GuardedOf(attributes - keys)
  {
    assert attributes - (keys - {k}) == (attributes - keys)[k := attributes[k]];
  }

  /** Copies the guarded attributes one by one, in any order. */
  method Preserve(existing: Record, incoming: Record) returns (out: Record)
    ensures out == Preserved(existing, incoming)
  {
    var attributes := incoming.attributes;
    var keys := existing.attributes.Keys;
    while keys != {}
      invariant keys <= existing.attributes.Keys
      invariant attributes == incoming.attributes + GuardedOf(existing.attributes - keys)
    {
      var k :| k in keys;
      CopyingOne(existing.attributes, keys, k);
      keys := keys - {k};
      if Guarded(k) {
        attributes := attributes[k := existing.attributes[k]];
      }
    }
    assert existing.attributes - {} == existing.attributes;
    out := incoming.(title := existing.title, classification := existing.classification, labels := existing.labels,
                     kind := existing.kind, externalID := existing.externalID, sourceSystem := existing.sourceSystem,
                     attributes := attributes);
  }

  function Promoted(existing: Option<Record>, r: Record, now: int): Record {
    r.(createdAt := if existing.Some? then existing.value.createdAt else if r.createdAt == 0 then now else r.createdAt,
       state := if r.state == "" || IsPlaceholder(r.state) then ACCEPTED else r.state,
       attributes := WithoutMarkers(r.attributes),
       updatedAt := now)
  }

  function Find(records: Records, id: string): Option<Record> {
    if id in records then Some(records[id]) else None
  }

  /** A write that an intake attempts in its transaction. */
  datatype Attempt = Attempt(incoming: Record, generated: bool, now: int)

  predicate Refused(records: Records, a: Attempt) {
    var id := a.incoming.resourceID;
    id in records && a.generated && IsSourceOfTruth(records[id]) && WouldOverwrite(records[id], a.incoming)
  }

  /** The record stored over an existing authoritative one by a generated write. */
  function Overlaid(existing: Record, incoming: Record, now: int): Record {
    Promoted(Some(existing), Preserved(existing, incoming).(createdAt := existing.createdAt), now)
  }

  function Replaced(existing: Option<Record>, incoming: Record, now: int): Record {
    Promoted(existing, incoming.(createdAt := if existing.Some? then existing.value.createdAt else now), now)
  }

  /** The records after an attempt; a refused one rolls back. */
  function Committed(records: Records, a: Attempt): Records {
    var id := a.incoming.resourceID;
    if Refused(records, a) then records
    else records[id := if id in records && a.generated && IsSourceOfTruth(records[id]) then Overlaid(records[id], a.incoming, a.now)
                       else Replaced(Find(records, id), a.incoming, a.now)]
  }

  class RecordStore {
    var records: Records

    constructor (records: Records)
      ensures this.records == records
    {
      this.records := records;
    }

    method PromotePlaceholder(r: Record, now: int)
      modifies this
      ensures records == old(records)[r.resourceID := Promoted(Find(old(records), r.resourceID), r, now)]
    {
      var rec := r;
      if rec.resourceID in records {
        rec := rec.(createdAt := records[rec.resourceID].createdAt);
      } else if rec.createdAt == 0 {
        rec := rec.(createdAt := now);
      }
      if rec.state == "" || rec.state == PLACEHOLDER || rec.state == ENSURED {
        rec := rec.(state := ACCEPTED);
      }
      rec := rec.(updatedAt := now, attributes := rec.attributes - {"placeholder"} - {"ensured"});
      assert rec.attributes == WithoutMarkers(r.attributes);
      records := records[rec.resourceID := rec];
    }

    /** The record part of the intake transaction. */
    method Commit(incoming: Record, generated: bool, now: int) returns (ok: bool)
      modifies this
      ensures ok <==> !Refused(old(records), Attempt(incoming, generated, now))
      ensures records == Committed(old(records), Attempt(incoming, generated, now))
    {
      var rec := incoming;
      ghost var found := Find(records, rec.resourceID);
      ghost var protected := found.Some? && generated && IsSourceOfTruth(found.value);
      if rec.resourceID in records {
        var existing := records[rec.resourceID];
        if generated && IsSourceOfTruth(existing) {
          if WouldOverwrite(existing, rec) {
            return false;
          }
          rec := Preserve(existing, rec);
        }
        rec := rec.(createdAt := existing.createdAt);
      } else {
        rec := rec.(createdAt := now);
      }
      assert Promoted(found, rec, now) == if protected then Overlaid(found.value, incoming, now) else Replaced(found, incoming, now);
      PromotePlaceholder(rec, now);
      ok := true;
    }
  }

  /* ---------- what the protection amounts to ---------- */

  /** The later record says the same as the earlier one wherever the earlier one is authoritative. */
  ghost predicate SaysTheSame(a: Record, b: Record) {
    && b.title == a.title && b.classification == a.classification && b.labels == a.labels && b.kind == a.kind
    && b.externalID == a.externalID && b.sourceSystem == a.sourceSystem && b.createdAt == a.createdAt
    && forall k :: Guarded(k) && k in a.attributes ==> k in b.attributes && b.attributes[k] == a.attributes[k]
  }

  lemma GuardedIsNoMarker(k: string)
    requires Guarded(k)
    ensures !Marker(k)
  {
    assert k[0] == 'a' || k[0] == 's' || k[0] == 't' || k[0] == 'v';
  }

  lemma OverlaySaysTheSame(existing: Record, incoming: Record, now: int)
    ensures SaysTheSame(existing, Overlaid(existing, incoming, now))
    ensures forall k :: Guarded(k) ==>
              Attribute(Overlaid(existing, incoming, now), k) == Attribute(if k in existing.attributes then existing else incoming, k)
  {
    var attributes := Preserved(existing, incoming).attributes;
    var out := Overlaid(existing, incoming, now);
    assert out.attributes == WithoutMarkers(attributes);
    forall k | Guarded(k)
      ensures k in out.attributes <==> k in existing.attributes || k in incoming.attributes
      ensures k in out.attributes ==> out.attributes[k] == if k in existing.attributes then existing.attributes[k] else incoming.attributes[k]
    {
      GuardedIsNoMarker(k);
    }
  }

  /** One generated write leaves an authoritative record saying the same. */
  lemma GeneratedWriteSaysTheSame(records: Records, a: Attempt)
    requires a.incoming.resourceID in records && IsSourceOfTruth(records[a.incoming.resourceID]) && a.generated
    ensures SaysTheSame(records[a.incoming.resourceID], Committed(records, a)[a.incoming.resourceID])
  {
    OverlaySaysTheSame(records[a.incoming.resourceID], a.incoming, a.now);
  }

  /** An accepted generated write leaves the record authoritative exactly when the record carries
      the attribute `authority` itself, or the write does not set it. */
  lemma StaysAuthoritativeIff(existing: Record, incoming: Record, now: int)
    requires IsSourceOfTruth(existing) && !WouldOverwrite(existing, incoming)
    ensures IsSourceOfTruth(Overlaid(existing, incoming, now))
            <==> AUTHORITY in existing.attributes || Attribute(incoming, AUTHORITY) == ""
  {
    var out := Overlaid(existing, incoming, now);
    OverlaySaysTheSame(existing, incoming, now);
    FoldedIsNonEmpty(AuthorityOf(existing));
    assert Guarded(AUTHORITY) && Guarded(SOURCE_AUTHORITY);
    if AUTHORITY in existing.attributes || Attribute(incoming, AUTHORITY) == "" {
      assert AuthorityOf(out) == AuthorityOf(existing);
    } else {
      assert AuthorityOf(out) == AuthorityOf(incoming);
    }
  }

  lemma FoldedIsNonEmpty(s: string)
    requires Mapping.EqualFold(s, SOURCE_OF_TRUTH)
    ensures s != ""
  {
    assert |Mapping.Lower(s)| == |"source_of_truth"|;
  }

  /** Many attempts, in order. */
  function Play(records: Records, attempts: seq<Attempt>): Records {
    if attempts == [] then records
    else Committed(Play(records, attempts[..|attempts| - 1]), attempts[|attempts| - 1])
  }

  /** The record carries `authority: source_of_truth` itself, in any letter case. */
  predicate Authoritative(r: Record) {
    AUTHORITY in r.attributes && IsSourceOfTruth(r)
  }

  lemma OverlayStaysAuthoritative(existing: Record, incoming: Record, now: int)
    requires Authoritative(existing) && !WouldOverwrite(existing, incoming)
    ensures Authoritative(Overlaid(existing, incoming, now)) && SaysTheSame(existing, Overlaid(existing, incoming, now))
  {
    OverlaySaysTheSame(existing, incoming, now);
    StaysAuthoritativeIff(existing, incoming, now);
    assert Guarded(AUTHORITY);
  }

  lemma CommittedIs(records: Records, a: Attempt, id: string)
    requires id in records && Authoritative(records[id]) && a.generated
    ensures id in Committed(records, a)
    ensures Committed(records, a)[id] == if a.incoming.resourceID != id || WouldOverwrite(records[id], a.incoming) then records[id]
                                         else Overlaid(records[id], a.incoming, a.now)
  {
  }

  lemma GeneratedStep(records: Records, a: Attempt, id: string)
    requires id in records && Authoritative(records[id]) && a.generated
    ensures id in Committed(records, a) && SaysTheSame(records[id], Committed(records, a)[id])
    ensures Authoritative(Committed(records, a)[id])
  {
    CommittedIs(records, a, id);
    if a.incoming.resourceID == id && !WouldOverwrite(records[id], a.incoming) {
      OverlayStaysAuthoritative(records[id], a.incoming, a.now);
    }
  }

  /** No run of generated intakes, on whatever resources, changes what an authoritative record says,
      nor its standing. */
  lemma {:induction false} GeneratedRunsSayTheSame(records: Records, attempts: seq<Attempt>, id: string)
    requires id in records && Authoritative(records[id])
    requires forall i :: 0 <= i < |attempts| ==> attempts[i].generated
    ensures id in Play(records, attempts) && SaysTheSame(records[id], Play(records, attempts)[id])
    ensures Authoritative(Play(records, attempts)[id])
  {
    if attempts != [] {
      var n := |attempts| - 1;
      GeneratedRunsSayTheSame(records, attempts[..n], id);
      GeneratedStep(Play(records, attempts[..n]), attempts[n], id);
    }
  }

  lemma UserClaimIsNotTruth()
    ensures !Mapping.EqualFold(USER_CLAIM, SOURCE_OF_TRUTH)
  {
    assert |Mapping.Lower(USER_CLAIM)| == 10 && |Mapping.Lower(SOURCE_OF_TRUTH)| == 15;
  }

  /** A mapping sets both attributes from the one authority that an event states. */
  function Claim(existing: Record): Record {
    existing.(attributes := map[AUTHORITY := USER_CLAIM, SOURCE_AUTHORITY := USER_CLAIM])
  }

  lemma ClaimIsNoTruth(existing: Record)
    ensures AUTHORITY in Claim(existing).attributes && Attribute(Claim(existing), AUTHORITY) == USER_CLAIM
    ensures !IsSourceOfTruth(Claim(existing))
  {
    assert AuthorityOf(Claim(existing)) == USER_CLAIM;
    UserClaimIsNotTruth();
  }

  lemma ClaimTakesStanding(existing: Record, now: int)
    requires IsSourceOfTruth(existing) && AUTHORITY !in existing.attributes
    ensures !WouldOverwrite(existing, Claim(existing)) && !IsSourceOfTruth(Overlaid(existing, Claim(existing), now))
  {
    ClaimIsNoTruth(existing);
    StaysAuthoritativeIff(existing, Claim(existing), now);
  }

  /** Without that attribute two generated writes suffice: the first is accepted and takes the
      standing away, the second is accepted and changes the title. */
  lemma ProtectionCanBeLost(existing: Record, now: int) returns (first: Attempt, second: Attempt)
    requires IsSourceOfTruth(existing) && AUTHORITY !in existing.attributes
    ensures first.generated && second.generated
    ensures var after := Committed(Committed(map[existing.resourceID := existing], first), second);
            existing.resourceID in after && after[existing.resourceID].title != existing.title
  {
    var id, claim := existing.resourceID, Claim(existing);
    first, second := Attempt(claim, true, now), Attempt(claim.(title := existing.title + "!"), true, now);
    ClaimTakesStanding(existing, now);
    var middle := Committed(map[id := existing], first);
    assert middle[id] == Overlaid(existing, claim, now);
    assert Committed(middle, second)[id] == Replaced(Some(middle[id]), second.incoming, now);
  }
}
