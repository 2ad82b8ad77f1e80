/** Edge resolution and its safety rails in internal/mapping/mapping.go.  Expressions over the
    payload are evaluated beforehand; their results are the inputs here. */
module Mapping {
  import opened Ports
  import opened Sorting

  /** One edges[] entry of a mapping after its expressions were evaluated. */
  datatype EdgeInput = EdgeInput(predicate_: string, fromID: string, toID: string, confidence: real,
                                 ensure: Option<bool>, sync: Option<bool>)

  datatype CanonicalEdge = CanonicalEdge(fromID: string, toID: string, predicate_: string, confidence: real,
                                         ensureEndpoints: bool, syncAuthzParent: bool,
                                         toKind: string, toTitle: string, toExternalID: string)

  datatype Constraints = Constraints(cannotMintOrganization: bool, cannotBroadenACL: bool,
                                     authorityCeilingFromSource: bool, clientFieldsMayOnlyNarrow: bool)

  datatype Error = Forbidden | Invalid

  datatype Outcome<+T> = Ok(value: T) | Err(error: Error)

  const NO_CONSTRAINTS := Constraints(false, false, false, false)

  const ALLOWED_PREDICATES: set<string> := {"parent", "related_to", "mentions", "derived_from", "assigned_to"}

  /* ---------- strings ---------- */

  function LowerChar(c: char): char {
    if 'A' <= c <= 'Z' then ((c as int) - ('A' as int) + ('a' as int)) as char else c
  }

  function Lower(s: string): string {
    seq(|s|, i requires 0 <= i < |s| => LowerChar(s[i]))
  }

  predicate EqualFold(a: string, b: string) {
    Lower(a) == Lower(b)
  }

  predicate IsSpace(c: char) {
    c in {' ', '\t', '\n', '\r'}
  }

  function TrimLeft(s: string): string {
    if s != "" && IsSpace(s[0]) then TrimLeft(s[1..]) else s
  }

  function TrimRight(s: string): string {
    if s != "" && IsSpace(s[|s| - 1]) then TrimRight(s[..|s| - 1]) else s
  }

  function TrimSpace(s: string): string {
    TrimRight(TrimLeft(s))
  }

  function BeforeHash(s: string): string {
    if s == "" || s[0] == '#' then "" else [s[0]] + BeforeHash(s[1..])
  }

  function TrimPrefix(s: string, prefix: string): string {
    if prefix <= s then s[|prefix|..] else s
  }

  /* ---------- resolving edges ---------- */

  function TripleOf(e: CanonicalEdge): Triple {
    Triple(e.fromID, e.predicate_, e.toID)
  }

  /** Entries that `add` drops: missing parts and self-edges. */
  predicate Usable(e: CanonicalEdge) {
    e.fromID != "" && e.toID != "" && e.predicate_ != "" && e.fromID != e.toID
  }

  function Normalized(e: CanonicalEdge): CanonicalEdge {
    if e.confidence <= 0.0 then e.(confidence := 1.0) else e
  }

  ghost predicate OnePerTriple(edges: seq<CanonicalEdge>) {
    forall i, j :: 0 <= i < j < |edges| ==> TripleOf(edges[i]) != TripleOf(edges[j])
  }

  ghost predicate Listed(added: seq<CanonicalEdge>, t: Triple) {
    exists a :: a in added && TripleOf(a) == t
  }

  ghost predicate WantsSync(added: seq<CanonicalEdge>, t: Triple) {
    exists a :: a in added && TripleOf(a) == t && a.syncAuthzParent
  }

  ghost predicate WantsEndpoints(added: seq<CanonicalEdge>, t: Triple) {
    exists a :: a in added && TripleOf(a) == t && a.ensureEndpoints
  }

  /** The first edge handed in for a triple. */
  function FirstOf(added: seq<CanonicalEdge>, t: Triple): Option<CanonicalEdge> {
    if added == [] then None
    else
      var before, last := FirstOf(added[..|added| - 1], t), added[|added| - 1];
      if before.Some? then before else if TripleOf(last) == t then Some(last) else None
  }

  lemma {:induction false} FirstIsListed(added: seq<CanonicalEdge>, t: Triple)
    ensures FirstOf(added, t).Some? <==> Listed(added, t)
  {
    if added != [] {
      var n := |added| - 1;
      FirstIsListed(added[..n], t);
      OneMore(added[..n], added[n], t);
      assert added == added[..n] + [added[n]];
    }
  }

  lemma OneMoreFirst(added: seq<CanonicalEdge>, e: CanonicalEdge, t: Triple)
    ensures FirstOf(added + [e], t) == if FirstOf(added, t).Some? then FirstOf(added, t) else if TripleOf(e) == t then Some(e) else None
  {
    assert (added + [e])[..|added|] == added;
  }

  lemma OneMore(added: seq<CanonicalEdge>, e: CanonicalEdge, t: Triple)
    ensures Listed(added + [e], t) <==> Listed(added, t) || TripleOf(e) == t
    ensures WantsSync(added + [e], t) <==> WantsSync(added, t) || (TripleOf(e) == t && e.syncAuthzParent)
    ensures WantsEndpoints(added + [e], t) <==> WantsEndpoints(added, t) || (TripleOf(e) == t && e.ensureEndpoints)
  {
    assert forall a :: a in added + [e] <==> a in added || a == e;
  }

  /** A merged edge is the first of its triple, with the flags that any entry of the triple asked for. */
  ghost predicate Faithful(added: seq<CanonicalEdge>, e: CanonicalEdge) {
    && Usable(e) && Listed(added, TripleOf(e)) && ButForFlags(FirstOf(added, TripleOf(e)), e)
    && (e.syncAuthzParent <==> WantsSync(added, TripleOf(e)))
    && (e.ensureEndpoints <==> WantsEndpoints(added, TripleOf(e)))
  }

  predicate ButForFlags(first: Option<CanonicalEdge>, e: CanonicalEdge) {
    first.Some? && e == Normalized(first.value).(syncAuthzParent := e.syncAuthzParent, ensureEndpoints := e.ensureEndpoints)
  }

  /** One edge per triple, for exactly the usable triples handed in. */
  ghost predicate Represents(edges: seq<CanonicalEdge>, added: seq<CanonicalEdge>) {
    && OnePerTriple(edges)
    && (forall i :: 0 <= i < |edges| ==> Faithful(added, edges[i]))
    && (forall a :: a in added && Usable(a) ==> Listed(edges, TripleOf(a)))
  }

  /** The closure `add` of the source: deduplicate by triple, merge flags. */
  method Add(edges: seq<CanonicalEdge>, e: CanonicalEdge, ghost added: seq<CanonicalEdge>) returns (out: seq<CanonicalEdge>)
    requires Represents(edges, added)
    ensures Represents(out, added + [e])
  {
    if !Usable(e) {
      DropRepresents(edges, e, added);
      return edges;
    }
    for i := 0 to |edges|
      invariant forall j :: 0 <= j < i ==> TripleOf(edges[j]) != TripleOf(e)
    {
      if TripleOf(edges[i]) == TripleOf(e) {
        MergeRepresents(edges, i, e, added);
        return edges[i := Merged(edges[i], e)];
      }
    }
    AppendRepresents(edges, e, added);
    out := edges + [Normalized(e)];
  }

  function Merged(kept: CanonicalEdge, e: CanonicalEdge): CanonicalEdge {
    kept.(syncAuthzParent := kept.syncAuthzParent || e.syncAuthzParent,
         ensureEndpoints := kept.ensureEndpoints || e.ensureEndpoints)
  }

  lemma DropRepresents(edges: seq<CanonicalEdge>, e: CanonicalEdge, added: seq<CanonicalEdge>)
    requires Represents(edges, added) && !Usable(e)
    ensures Represents(edges, added + [e])
  {
    forall i | 0 <= i < |edges| ensures Faithful(added + [e], edges[i]) {
      assert Faithful(added, edges[i]);
      OneMore(added, e, TripleOf(edges[i]));
      OneMoreFirst(added, e, TripleOf(edges[i]));
    }
  }

  lemma StillFaithful(added: seq<CanonicalEdge>, kept: CanonicalEdge, e: CanonicalEdge)
    requires Faithful(added, kept)
    ensures Faithful(added + [e], if TripleOf(kept) == TripleOf(e) then Merged(kept, e) else kept)
  {
    OneMore(added, e, TripleOf(kept));
    OneMoreFirst(added, e, TripleOf(kept));
  }

  lemma MergeRepresents(edges: seq<CanonicalEdge>, i: nat, e: CanonicalEdge, added: seq<CanonicalEdge>)
    requires Represents(edges, added) && i < |edges| && TripleOf(edges[i]) == TripleOf(e) && Usable(e)
    ensures Represents(edges[i := Merged(edges[i], e)], added + [e])
  {
    var out := edges[i := Merged(edges[i], e)];
    assert forall j :: 0 <= j < |edges| ==> TripleOf(out[j]) == TripleOf(edges[j]);
    forall j | 0 <= j < |out| ensures Faithful(added + [e], out[j]) {
      assert j != i ==> TripleOf(edges[j]) != TripleOf(edges[i]);
      StillFaithful(added, edges[j], e);
    }
    forall a | a in added + [e] && Usable(a) ensures Listed(out, TripleOf(a)) {
      assert a in added || a == e;
      SameTriples(edges, out, TripleOf(a));
      assert a == e ==> out[i] in out && TripleOf(out[i]) == TripleOf(a);
    }
  }

  lemma SameTriples(a: seq<CanonicalEdge>, b: seq<CanonicalEdge>, t: Triple)
    requires |a| == |b| && forall j :: 0 <= j < |a| ==> TripleOf(b[j]) == TripleOf(a[j])
    ensures Listed(a, t) ==> Listed(b, t)
  {
    if Listed(a, t) {
      var x :| x in a && TripleOf(x) == t;
      var j :| 0 <= j < |a| && a[j] == x;
      assert b[j] in b;
    }
  }

  lemma AppendRepresents(edges: seq<CanonicalEdge>, e: CanonicalEdge, added: seq<CanonicalEdge>)
    requires Represents(edges, added) && Usable(e)
    requires forall j :: 0 <= j < |edges| ==> TripleOf(edges[j]) != TripleOf(e)
    ensures Represents(edges + [Normalized(e)], added + [e])
  {
    var out := edges + [Normalized(e)];
    assert !Listed(added, TripleOf(e)) by {
      forall a | a in added ensures TripleOf(a) != TripleOf(e) {
        if Usable(a) {
          assert Listed(edges, TripleOf(a));
        }
      }
    }
    FirstIsListed(added, TripleOf(e));
    forall j | 0 <= j < |out| ensures Faithful(added + [e], out[j]) {
      assert j < |edges| ==> Faithful(added, edges[j]);
      OneMore(added, e, TripleOf(out[j]));
      OneMoreFirst(added, e, TripleOf(out[j]));
    }
    forall a | a in added + [e] && Usable(a) ensures Listed(out, TripleOf(a)) {
      assert a in added || a == e;
      OneMore(edges, Normalized(e), TripleOf(a));
    }
  }

  /** What one entry contributes, or why it is refused. */
  function Entry(resourceID: string, x: EdgeInput): Outcome<CanonicalEdge> {
    var pred := if x.predicate_ == "" then EDGE_PARENT else x.predicate_;
    var from := if x.fromID == "" then resourceID else x.fromID;
    var ensure := if x.ensure.Some? then x.ensure.value else true;
    var sync := if x.sync.Some? then x.sync.value else false;
    if sync && !EqualFold(pred, EDGE_PARENT) then Err(Invalid)
    else if Lower(pred) !in ALLOWED_PREDICATES then Err(Invalid)
    else if x.confidence < 0.0 || x.confidence > 1.0 then Err(Invalid)
    else Ok(CanonicalEdge(from, x.toID, Lower(pred), x.confidence, ensure, sync, "", "", ""))
  }

  function ConvenienceParent(resourceID: string, parentID: string): CanonicalEdge {
    CanonicalEdge(resourceID, parentID, EDGE_PARENT, 1.0, true, false, "container", "", "")
  }

  /** The part before the first colon, when there is one past the start. */
  function KindOf(obj: string): string {
    if ':' in obj && obj[0] != ':' then BeforeColon(obj) else obj
  }

  function BeforeColon(s: string): string {
    if s == "" || s[0] == ':' then "" else [s[0]] + BeforeColon(s[1..])
  }

  const RESOURCE_PREFIX := "resource:"

  /** The parent derived from a visibility reference; stubID names resources that exist elsewhere. */
  function VisibilityParent(resourceID: string, visibilityRef: string, stubID: string -> string): Option<CanonicalEdge> {
    var obj := TrimSpace(BeforeHash(TrimSpace(visibilityRef)));
    if obj == "" then None
    else
      var isResource := RESOURCE_PREFIX <= obj;
      var parentID := if isResource then obj[|RESOURCE_PREFIX|..] else stubID(obj);
      if parentID == "" || parentID == resourceID then None
      else Some(CanonicalEdge(resourceID, parentID, EDGE_PARENT, 1.0, true, false,
                              if isResource then "resource" else KindOf(obj), if isResource then parentID else obj, obj))
  }

  ghost predicate Asked(entries: seq<EdgeInput>, e: CanonicalEdge) {
    exists x :: x in entries && x.toID == e.toID && x.sync == Some(true)
      && EqualFold(if x.predicate_ == "" then EDGE_PARENT else x.predicate_, EDGE_PARENT)
  }

  /** Why a mapping is refused: an entry with a target that is invalid. */
  predicate EntriesAreValid(resourceID: string, entries: seq<EdgeInput>) {
    forall x :: x in entries && x.toID != "" ==> Entry(resourceID, x).Ok?
  }

  /** The edges of the valid entries with a target, in order. */
  function FromEntries(resourceID: string, entries: seq<EdgeInput>): seq<CanonicalEdge> {
    if entries == [] then []
    else
      var x := entries[|entries| - 1];
      FromEntries(resourceID, entries[..|entries| - 1])
      + if x.toID != "" && Entry(resourceID, x).Ok? then [Entry(resourceID, x).value] else []
  }

  lemma LastMember<T>(s: seq<T>)
    requires s != []
    ensures forall x :: x in s <==> x in s[..|s| - 1] || x == s[|s| - 1]
  {
    assert s == s[..|s| - 1] + [s[|s| - 1]];
  }

  lemma {:induction false} EntriesAreHandedIn(resourceID: string, entries: seq<EdgeInput>, e: CanonicalEdge)
    ensures e in FromEntries(resourceID, entries) <==> exists x :: x in entries && x.toID != "" && Entry(resourceID, x) == Ok(e)
  {
    if entries != [] {
      var n := |entries| - 1;
      EntriesAreHandedIn(resourceID, entries[..n], e);
      LastMember(entries);
    }
  }

  function FromParent(resourceID: string, parentID: string): seq<CanonicalEdge> {
    if parentID != "" then [ConvenienceParent(resourceID, parentID)] else []
  }

  function Named(resourceID: string, parentID: string, entries: seq<EdgeInput>): seq<CanonicalEdge> {
    FromParent(resourceID, parentID) + FromEntries(resourceID, entries)
  }

  lemma OneMoreEntry(resourceID: string, parentID: string, done: seq<EdgeInput>, x: EdgeInput)
    ensures x.toID == "" ==> Named(resourceID, parentID, done + [x]) == Named(resourceID, parentID, done)
    ensures x.toID != "" && Entry(resourceID, x).Ok? ==>
              Named(resourceID, parentID, done + [x]) == Named(resourceID, parentID, done) + [Entry(resourceID, x).value]
    ensures EntriesAreValid(resourceID, done + [x])
       <==> EntriesAreValid(resourceID, done) && (x.toID == "" || Entry(resourceID, x).Ok?)
  {
    assert (done + [x])[..|done|] == done;
    assert forall y :: y in done + [x] <==> y in done || y == x;
  }

  ghost predicate HasParent(added: seq<CanonicalEdge>, resourceID: string) {
    exists a :: a in added && Usable(a) && a.predicate_ == EDGE_PARENT && a.fromID == resourceID
  }

  /** Everything handed to `add`: the convenience parent, every entry with a target, and the parent
      from the visibility reference when none of them is a parent edge of the resource. */
  ghost function Handed(resourceID: string, parentID: string, entries: seq<EdgeInput>, visibilityRef: string, stubID: string -> string): seq<CanonicalEdge> {
    WithVisibilityParent(resourceID, visibilityRef, stubID, Named(resourceID, parentID, entries))
  }

  ghost function WithVisibilityParent(resourceID: string, visibilityRef: string, stubID: string -> string, named: seq<CanonicalEdge>): seq<CanonicalEdge> {
    var derived := VisibilityParent(resourceID, visibilityRef, stubID);
    if visibilityRef != "" && !HasParent(named, resourceID) && derived.Some? then named + [derived.value] else named
  }

  lemma ParentsAreMapped(edges: seq<CanonicalEdge>, added: seq<CanonicalEdge>, resourceID: string)
    requires Represents(edges, added)
    ensures (exists e :: e in edges && e.predicate_ == EDGE_PARENT && e.fromID == resourceID) <==> HasParent(added, resourceID)
  {
    if e :| e in edges && e.predicate_ == EDGE_PARENT && e.fromID == resourceID {
      var i :| 0 <= i < |edges| && edges[i] == e;
      assert Faithful(added, edges[i]);
      var a :| a in added && TripleOf(a) == TripleOf(e);
      assert Usable(a);
    }
    if HasParent(added, resourceID) {
      var a :| a in added && Usable(a) && a.predicate_ == EDGE_PARENT && a.fromID == resourceID;
      assert Listed(edges, TripleOf(a));
      var e :| e in edges && TripleOf(e) == TripleOf(a);
    }
  }

  /** The mapped edges: one per usable triple of what is handed in, flags merged. */
  method ResolveEdges(resourceID: string, parentID: string, entries: seq<EdgeInput>, visibilityRef: string, stubID: string -> string)
    returns (r: Outcome<seq<CanonicalEdge>>)
    ensures r.Ok? ==> Represents(r.value, Handed(resourceID, parentID, entries, visibilityRef, stubID))
    ensures r.Ok? ==> forall e :: e in r.value && e.syncAuthzParent ==> e.predicate_ == EDGE_PARENT && Asked(entries, e)
    ensures r.Ok? <==> EntriesAreValid(resourceID, entries)
    ensures r.Err? ==> r.error == Invalid
  {
    var edges := AddConvenienceParent(resourceID, parentID);
    for i := 0 to |entries|
      invariant Represents(edges, Named(resourceID, parentID, entries[..i])) && EntriesAreValid(resourceID, entries[..i])
    {
      AroundOne(entries, i);
      var next := ResolveNext(resourceID, parentID, entries[..i], entries[i], edges);
      if next.Err? {
        InvalidPart(resourceID, entries[..i + 1], entries[i + 1..]);
        return next;
      }
      edges := next.value;
    }
    assert entries[..|entries|] == entries;
    edges := AddVisibilityParent(resourceID, visibilityRef, stubID, edges, Named(resourceID, parentID, entries));
    SyncComesFromEntries(resourceID, parentID, entries, visibilityRef, stubID, edges);
    r := Ok(edges);
  }

  method AddConvenienceParent(resourceID: string, parentID: string) returns (edges: seq<CanonicalEdge>)
    ensures Represents(edges, Named(resourceID, parentID, []))
  {
    assert Named(resourceID, parentID, []) == FromParent(resourceID, parentID);
    edges := [];
    if parentID != "" {
      edges := Add(edges, ConvenienceParent(resourceID, parentID), []);
      assert [] + [ConvenienceParent(resourceID, parentID)] == FromParent(resourceID, parentID);
    }
  }

  lemma InvalidPart(resourceID: string, some: seq<EdgeInput>, rest: seq<EdgeInput>)
    requires !EntriesAreValid(resourceID, some)
    ensures !EntriesAreValid(resourceID, some + rest)
  {
    var x :| x in some && x.toID != "" && Entry(resourceID, x).Err?;
    assert x in some + rest;
  }

  /** One entry of the loop. */
  method ResolveNext(resourceID: string, ghost parentID: string, ghost done: seq<EdgeInput>, x: EdgeInput, edges: seq<CanonicalEdge>)
    returns (r: Outcome<seq<CanonicalEdge>>)
    requires Represents(edges, Named(resourceID, parentID, done)) && EntriesAreValid(resourceID, done)
    ensures r.Ok? <==> EntriesAreValid(resourceID, done + [x])
    ensures r.Ok? ==> Represents(r.value, Named(resourceID, parentID, done + [x]))
    ensures r.Err? ==> r.error == Invalid
  {
    OneMoreEntry(resourceID, parentID, done, x);
    if x.toID == "" {
      return Ok(edges);
    }
    var entry := Entry(resourceID, x);
    if entry.Err? {
      return Err(entry.error);
    }
    var more := Add(edges, entry.value, Named(resourceID, parentID, done));
    r := Ok(more);
  }

  method AddVisibilityParent(resourceID: string, visibilityRef: string, stubID: string -> string, edges: seq<CanonicalEdge>, ghost named: seq<CanonicalEdge>)
    returns (out: seq<CanonicalEdge>)
    requires Represents(edges, named)
    ensures Represents(out, WithVisibilityParent(resourceID, visibilityRef, stubID, named))
  {
    out := edges;
    if visibilityRef != "" {
      ParentsAreMapped(edges, named, resourceID);
      var hasParent := exists e :: e in edges && e.predicate_ == EDGE_PARENT && e.fromID == resourceID;
      var derived := VisibilityParent(resourceID, visibilityRef, stubID);
      if !hasParent && derived.Some? {
        out := Add(edges, derived.value, named);
      }
    }
  }

  lemma WhoAsks(resourceID: string, parentID: string, entries: seq<EdgeInput>, visibilityRef: string, stubID: string -> string, a: CanonicalEdge)
    ensures a in Handed(resourceID, parentID, entries, visibilityRef, stubID) && Usable(a) && a.syncAuthzParent
       <==> exists x :: AsksFor(resourceID, entries, x) && Entry(resourceID, x) == Ok(a)
  {
    EntriesAreHandedIn(resourceID, entries, a);
    var fromEntry := exists x :: x in entries && x.toID != "" && Entry(resourceID, x) == Ok(a);
    assert a.syncAuthzParent ==> (a in Handed(resourceID, parentID, entries, visibilityRef, stubID) <==> a in FromEntries(resourceID, entries));
    if fromEntry && Usable(a) && a.syncAuthzParent {
      var x :| x in entries && x.toID != "" && Entry(resourceID, x) == Ok(a);
      assert AsksFor(resourceID, entries, x);
    }
  }

  lemma AskersNameParents(resourceID: string, entries: seq<EdgeInput>, x: EdgeInput, e: CanonicalEdge)
    requires AsksFor(resourceID, entries, x) && TripleOf(Entry(resourceID, x).value) == TripleOf(e)
    ensures e.predicate_ == EDGE_PARENT && Asked(entries, e) && x.toID == e.toID
  {
    assert Lower(EDGE_PARENT) == EDGE_PARENT;
  }

  /** Only entries ask for inheritance, and the merged edges ask for what usable entries ask. */
  lemma SyncComesFromEntries(resourceID: string, parentID: string, entries: seq<EdgeInput>, visibilityRef: string, stubID: string -> string,
                             edges: seq<CanonicalEdge>)
    requires Represents(edges, Handed(resourceID, parentID, entries, visibilityRef, stubID))
    ensures forall e :: e in edges && e.syncAuthzParent ==> e.predicate_ == EDGE_PARENT && Asked(entries, e)
    ensures forall e :: e in edges && e.syncAuthzParent ==> exists x :: AsksFor(resourceID, entries, x) && x.toID == e.toID
  {
    var added := Handed(resourceID, parentID, entries, visibilityRef, stubID);
    forall e | e in edges && e.syncAuthzParent
      ensures e.predicate_ == EDGE_PARENT && Asked(entries, e)
      ensures exists x :: AsksFor(resourceID, entries, x) && x.toID == e.toID
    {
      var a := WhoWanted(edges, added, e);
      WhoAsks(resourceID, parentID, entries, visibilityRef, stubID, a);
      var x :| AsksFor(resourceID, entries, x) && Entry(resourceID, x) == Ok(a);
      AskersNameParents(resourceID, entries, x, e);
    }
  }

  lemma WhoWanted(edges: seq<CanonicalEdge>, added: seq<CanonicalEdge>, e: CanonicalEdge) returns (a: CanonicalEdge)
    requires Represents(edges, added) && e in edges && e.syncAuthzParent
    ensures a in added && TripleOf(a) == TripleOf(e) && Usable(a) && a.syncAuthzParent
  {
    var i :| 0 <= i < |edges| && edges[i] == e;
    assert Faithful(added, edges[i]);
    a :| a in added && TripleOf(a) == TripleOf(e) && a.syncAuthzParent;
  }

  lemma EntriesGetTheirSync(resourceID: string, parentID: string, entries: seq<EdgeInput>, visibilityRef: string, stubID: string -> string,
                            edges: seq<CanonicalEdge>, x: EdgeInput)
    requires Represents(edges, Handed(resourceID, parentID, entries, visibilityRef, stubID)) && AsksFor(resourceID, entries, x)
    ensures exists e :: e in edges && e.syncAuthzParent && e.toID == x.toID
  {
    var added, a := Handed(resourceID, parentID, entries, visibilityRef, stubID), Entry(resourceID, x).value;
    WhoAsks(resourceID, parentID, entries, visibilityRef, stubID, a);
    assert Listed(edges, TripleOf(a));
    var e :| e in edges && TripleOf(e) == TripleOf(a);
    var i :| 0 <= i < |edges| && edges[i] == e;
    assert Faithful(added, edges[i]) && WantsSync(added, TripleOf(e));
  }

  lemma OnlyAllowedIff(resourceID: string, parentID: string, entries: seq<EdgeInput>, visibilityRef: string, stubID: string -> string,
                       edges: seq<CanonicalEdge>, allowlist: seq<string>)
    requires Represents(edges, Handed(resourceID, parentID, entries, visibilityRef, stubID))
    ensures OnlyAllowedParents(resourceID, entries, allowlist)
       <==> forall e :: e in edges && e.syncAuthzParent ==> ParentAllowed(e.toID, allowlist)
  {
    SyncComesFromEntries(resourceID, parentID, entries, visibilityRef, stubID, edges);
    forall x | AsksFor(resourceID, entries, x) ensures exists e :: e in edges && e.syncAuthzParent && e.toID == x.toID {
      EntriesGetTheirSync(resourceID, parentID, entries, visibilityRef, stubID, edges, x);
    }
  }

  /** A valid entry whose edge survives `add` and asks for inheritance. */
  predicate AsksFor(resourceID: string, entries: seq<EdgeInput>, x: EdgeInput) {
    x in entries && x.toID != "" && Entry(resourceID, x).Ok? && Usable(Entry(resourceID, x).value) && Entry(resourceID, x).value.syncAuthzParent
  }

  /* ---------- safety rails ---------- */

  /** Constraints are either absent or all set. */
  function EnforceConstraints(c: Constraints): Option<Error> {
    if c == NO_CONSTRAINTS then None
    else if !c.cannotMintOrganization then Some(Forbidden)
    else if !c.cannotBroadenACL then Some(Forbidden)
    else if !c.authorityCeilingFromSource then Some(Forbidden)
    else if !c.clientFieldsMayOnlyNarrow then Some(Forbidden)
    else None
  }

  /** A reference of the source's allowlist names the parent: literally, as a resource object, or
      with a relation after '#'. */
  predicate Names(ref: string, parentID: string) {
    var r := TrimSpace(ref);
    var obj := TrimSpace(BeforeHash(r));
    && r != ""
    && (|| r == parentID || r == ResourceObject(parentID) || obj == parentID || obj == ResourceObject(parentID)
        || TrimPrefix(obj, RESOURCE_PREFIX) == parentID)
  }

  predicate ParentAllowed(parentID: string, allowlist: seq<string>) {
    parentID != "" && exists ref :: ref in allowlist && Names(ref, parentID)
  }

  method ParentAllowedForAuthzSync(parentID: string, allowlist: seq<string>) returns (ok: bool)
    ensures ok <==> ParentAllowed(parentID, allowlist)
  {
    if parentID == "" || allowlist == [] {
      return false;
    }
    for i := 0 to |allowlist|
      invariant forall ref :: ref in allowlist[..i] ==> !Names(ref, parentID)
    {
      assert allowlist[..i + 1] == allowlist[..i] + [allowlist[i]];
      if Names(allowlist[i], parentID) {
        return true;
      }
    }
    assert allowlist[..|allowlist|] == allowlist;
    ok := false;
  }

  method EnforceParentAuthzSync(edges: seq<CanonicalEdge>, allowlist: seq<string>, c: Constraints) returns (r: Option<Error>)
    ensures r == None || r == Some(Forbidden)
    ensures r.None? <==> !(c.cannotBroadenACL || c == NO_CONSTRAINTS)
                         || forall e :: e in edges && e.syncAuthzParent ==> ParentAllowed(e.toID, allowlist)
  {
    if !(c.cannotBroadenACL || c == NO_CONSTRAINTS) {
      return None;
    }
    for i := 0 to |edges|
      invariant forall e :: e in edges[..i] && e.syncAuthzParent ==> ParentAllowed(e.toID, allowlist)
    {
      assert edges[..i + 1] == edges[..i] + [edges[i]];
      if edges[i].syncAuthzParent {
        var ok := ParentAllowedForAuthzSync(edges[i].toID, allowlist);
        if !ok {
          assert edges[i] in edges;
          return Some(Forbidden);
        }
      }
    }
    assert edges[..|edges|] == edges;
    r := None;
  }

  /** Every inheritance that is asked for has an allowlisted parent. */
  ghost predicate OnlyAllowedParents(resourceID: string, entries: seq<EdgeInput>, allowlist: seq<string>) {
    forall x :: AsksFor(resourceID, entries, x) ==> ParentAllowed(x.toID, allowlist)
  }

  /** When a mapping's edges are accepted, in terms of its inputs. */
  ghost predicate Acceptable(c: Constraints, resourceID: string, entries: seq<EdgeInput>, allowlist: seq<string>) {
    EnforceConstraints(c).None? && EntriesAreValid(resourceID, entries) && OnlyAllowedParents(resourceID, entries, allowlist)
  }

  /** The edge part of applying a mapping: whatever the mapping and payload, every accepted edge
      that asks for inheritance is a parent edge to an allowlisted parent. */
  method ApplyEdges(c: Constraints, resourceID: string, parentID: string, entries: seq<EdgeInput>, visibilityRef: string,
                    stubID: string -> string, allowlist: seq<string>)
    returns (r: Outcome<seq<CanonicalEdge>>)
    ensures r.Ok? <==> Acceptable(c, resourceID, entries, allowlist)
    ensures r.Err? ==> (r.error == Invalid <==> EnforceConstraints(c).None? && !EntriesAreValid(resourceID, entries))
    ensures r.Ok? ==> Represents(r.value, Handed(resourceID, parentID, entries, visibilityRef, stubID))
    ensures r.Ok? ==> OnePerTriple(r.value) && forall e :: e in r.value ==> Usable(e)
    ensures r.Ok? ==> forall e :: e in r.value && e.syncAuthzParent ==>
              e.predicate_ == EDGE_PARENT && Asked(entries, e) && ParentAllowed(e.toID, allowlist)
  {
    var refused := EnforceConstraints(c);
    if refused.Some? {
      return Err(refused.value);
    }
    r := ResolveEdges(resourceID, parentID, entries, visibilityRef, stubID);
    if r.Ok? {
      OnlyAllowedIff(resourceID, parentID, entries, visibilityRef, stubID, r.value, allowlist);
      MappedAreUsable(r.value, Handed(resourceID, parentID, entries, visibilityRef, stubID));
      refused := EnforceParentAuthzSync(r.value, allowlist, c);
      if refused.Some? {
        return Err(refused.value);
      }
    }
  }

  lemma MappedAreUsable(edges: seq<CanonicalEdge>, added: seq<CanonicalEdge>)
    requires Represents(edges, added)
    ensures forall e :: e in edges ==> Usable(e)
  {
    forall e | e in edges ensures Usable(e) {
      var i :| 0 <= i < |edges| && edges[i] == e;
      assert Faithful(added, edges[i]);
    }
  }
}
