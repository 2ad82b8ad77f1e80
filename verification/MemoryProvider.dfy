/** The in-process authorization provider: tuples updated in place, answers computed by search. */
module MemoryProvider {
  import opened Relationships

  const ORG_PREFIX := "organization:"

  /** The relation under which a grant is stored. */
  function GrantedAs(relation: string): string {
    if relation == "can_read" then "reader"
    else if relation == "can_delete" || relation == "can_admin" then "owner"
    else relation
  }

  /** The relation a revoke removes: only can_read is renamed. */
  function RevokedAs(relation: string): string {
    if relation == "can_read" then "reader" else relation
  }

  predicate Complete(t: Tuple) {
    t.obj != "" && t.relation != "" && t.subject != ""
  }

  function Canonical(t: Tuple): Tuple {
    t.(relation := GrantedAs(t.relation))
  }

  datatype PrincipalKind = User | Agent | Service | Group

  datatype Principal = Principal(id: string, kind: PrincipalKind, subject: string)

  datatype AuthzCheck = AuthzCheck(principal: Principal, action: string, resourceID: string)

  function FormatUser(p: Principal): string {
    var prefix := match p.kind case Agent => "agent" case Service => "service" case _ => "user";
    var id := if p.subject == "" then p.id else p.subject;
    if ':' in id then id else prefix + ":" + id
  }

  function FormatObject(resourceID: string): string {
    if ':' in resourceID then resourceID else "resource:" + resourceID
  }

  function MapRelation(action: string): string {
    if action in ["context.search", "context.get", "context.brief", "context.graph", "can_read", "reader", ""] then
      "can_read"
    else if action in ["can_manage", "context.manage", "can_admin", "context.delete", "can_delete"] then
      "can_manage"
    else action
  }

  /** The key under which the source's visited map remembers a goal. */
  function VisitKey(g: Goal): string {
    g.obj + "|" + g.relation
  }

  /** Goals of the two recursive relations never share a key, whatever the object names contain,
      so the visited map of strings is a set of goals. */
  lemma VisitKeysAreDistinct(g: Goal, h: Goal)
    requires g.relation == "can_read" || g.relation == "can_manage"
    requires h.relation == "can_read" || h.relation == "can_manage"
    requires VisitKey(g) == VisitKey(h)
    ensures g == h
  {
    var a, b := VisitKey(g), VisitKey(h);
    assert a[|a| - 1] == g.relation[|g.relation| - 1] && a[|a| - 3] == g.relation[|g.relation| - 3];
    assert b[|b| - 1] == h.relation[|h.relation| - 1] && b[|b| - 3] == h.relation[|h.relation| - 3];
    assert a[..|g.obj|] == g.obj && b[..|h.obj|] == h.obj;
  }

  /** The visited map one search shares between all its branches. */
  class Visited {
    var seen: set<Goal>

    constructor ()
      ensures seen == {}
    {
      seen := {};
    }
  }

  /** Everything a search from g can ask about. */
  ghost predicate Bounds(rels: Relations, universe: set<Goal>) {
    forall g, h :: g in universe && Inherits(rels, g, h) ==> h in universe
  }

  function ParentsStored(rels: Relations): set<string> {
    set o, p | o in rels && p in Parents(rels, o) :: p
  }

  function Universe(rels: Relations, g: Goal): set<Goal> {
    var names := ParentsStored(rels) + {g.obj};
    {g} + (set o | o in names :: Goal(o, "can_read")) + (set o | o in names :: Goal(o, "can_manage"))
  }

  lemma UniverseBounds(rels: Relations, g: Goal)
    ensures g in Universe(rels, g) && Bounds(rels, Universe(rels, g))
  {
    forall o, p | p in Parents(rels, o) ensures p in ParentsStored(rels) {
      assert o in rels;
    }
    forall h, k | h in Universe(rels, g) && Inherits(rels, h, k) ensures k in Universe(rels, g) {
      assert k == Goal(k.obj, k.relation);
    }
  }

  /** Everything first visited since `before` is ungranted and has all its successors visited. */
  ghost predicate Exhausted(rels: Relations, subject: string, before: set<Goal>, seen: set<Goal>, open: set<Goal>) {
    forall g :: g in seen && g !in before && g !in open ==>
      && !Granted(rels, g, subject)
      && forall h :: Inherits(rels, g, h) ==> h in seen
  }

  class Memory {
    var relations: Relations
    var orgMembers: map<string, set<string>>

    constructor ()
      ensures relations == map[] && orgMembers == map[]
    {
      relations, orgMembers := map[], map[];
    }

    static lemma GrantingAdds(rels: Relations, obj: string, r: string, subject: string)
      ensures var inner := if obj in rels then rels[obj] else map[];
              AddsExactly(rels, rels[obj := inner[r := Subjects(rels, obj, r) + {subject}]], Tuple(obj, r, subject))
    {
    }

    /** Fills in whatever maps are missing. */
    method AddSubject(obj: string, r: string, subject: string)
      modifies this`relations
      ensures AddsExactly(old(relations), relations, Tuple(obj, r, subject))
    {
      GrantingAdds(relations, obj, r, subject);
      if obj !in relations {
        relations := relations[obj := map[]];
      }
      if r !in relations[obj] {
        relations := relations[obj := relations[obj][r := {}]];
      }
      relations := relations[obj := relations[obj][r := relations[obj][r] + {subject}]];
    }

    /** Stores one tuple.  Only member grants on an organization reach orgMembers. */
    method Grant(obj: string, relation: string, subject: string)
      modifies this
      ensures AddsExactly(old(relations), relations, Tuple(obj, GrantedAs(relation), subject))
      ensures orgMembers == if ORG_PREFIX <= obj && relation == "member"
                            then WithMember(old(orgMembers), obj[|ORG_PREFIX|..], subject)
                            else old(orgMembers)
    {
      var r := GrantedAs(relation);
      AddSubject(obj, r, subject);
      if ORG_PREFIX <= obj && r == "member" {
        orgMembers := WithMember(orgMembers, obj[|ORG_PREFIX|..], subject);
      }
    }

    method Revoke(obj: string, relation: string, subject: string)
      modifies this`relations
      ensures forall o, r, s :: Has(relations, o, r, s) <==>
                Has(old(relations), o, r, s) && !(o == obj && r == RevokedAs(relation) && s == subject)
    {
      var r := RevokedAs(relation);
      if obj in relations && r in relations[obj] {
        relations := relations[obj := relations[obj][r := relations[obj][r] - {subject}]];
      }
    }

    method WriteTuples(tuples: seq<Tuple>)
      modifies this
      ensures forall o, r, s :: Has(relations, o, r, s) <==>
                || Has(old(relations), o, r, s)
                || exists t :: t in tuples && Complete(t) && Canonical(t) == Tuple(o, r, s)
    {
      for i := 0 to |tuples|
        invariant forall o, r, s :: Has(relations, o, r, s) <==>
                    || Has(old(relations), o, r, s)
                    || exists t :: t in tuples[..i] && Complete(t) && Canonical(t) == Tuple(o, r, s)
      {
        var t := tuples[i];
        assert tuples[..i + 1] == tuples[..i] + [t];
        if Complete(t) {
          Grant(t.obj, t.relation, t.subject);
        }
      }
      assert tuples[..|tuples|] == tuples;
    }

    method DeleteTuples(tuples: seq<Tuple>)
      modifies this`relations
      ensures forall o, r, s :: Has(relations, o, r, s) <==>
                && Has(old(relations), o, r, s)
                && !exists t :: t in tuples && Complete(t) && t.(relation := RevokedAs(t.relation)) == Tuple(o, r, s)
    {
      for i := 0 to |tuples|
        invariant forall o, r, s :: Has(relations, o, r, s) <==>
                    && Has(old(relations), o, r, s)
                    && !exists t :: t in tuples[..i] && Complete(t) && t.(relation := RevokedAs(t.relation)) == Tuple(o, r, s)
      {
        var t := tuples[i];
        assert tuples[..i + 1] == tuples[..i] + [t];
        if Complete(t) {
          Revoke(t.obj, t.relation, t.subject);
        }
      }
      assert tuples[..|tuples|] == tuples;
    }

    /** The recursive search.  `visiting` is shared by every branch and never popped, and
        subjects are tried in an arbitrary order. */
    method Can(obj: string, relation: string, subject: string, visiting: Visited, ghost universe: set<Goal>)
      returns (ok: bool)
      requires Bounds(relations, universe) && Goal(obj, relation) in universe
      requires visiting.seen <= universe
      modifies visiting
      ensures old(visiting.seen) + {Goal(obj, relation)} <= visiting.seen <= universe
      ensures ok ==> Derivable(relations, Goal(obj, relation), subject)
      ensures !ok ==> Exhausted(relations, subject, old(visiting.seen), visiting.seen, {})
      decreases universe - visiting.seen, 0
    {
      var goal := Goal(obj, relation);
      if goal in visiting.seen {
        return false;
      }
      visiting.seen := visiting.seen + {goal};
      if relation == "can_read" {
        if Has(relations, obj, "reader", subject) || Has(relations, obj, "restricted_reader", subject)
           || Has(relations, obj, "owner", subject) || Has(relations, obj, "assignee", subject) {
          GrantedIsDerivable(relations, goal, subject);
          return true;
        }
        var manages := Can(obj, "can_manage", subject, visiting, universe);
        if manages {
          InheritedIsDerivable(relations, goal, Goal(obj, "can_manage"), subject);
          return true;
        }
        ok := AnyParent(goal, subject, visiting, universe, old(visiting.seen));
      } else if relation == "can_manage" {
        if IsOrganization(obj) {
          ok := Has(relations, obj, "manager", subject) || Has(relations, obj, "knowledge_admin", subject)
                || Has(relations, obj, "owner", subject);
          if ok {
            GrantedIsDerivable(relations, goal, subject);
          }
          return;
        }
        if Has(relations, obj, "owner", subject) {
          GrantedIsDerivable(relations, goal, subject);
          return true;
        }
        var orgs := Subjects(relations, obj, "organization");
        while orgs != {}
          invariant orgs <= Subjects(relations, obj, "organization")
          invariant forall org :: org in Subjects(relations, obj, "organization") - orgs ==> !Administers(relations, org, subject)
          invariant visiting.seen == old(visiting.seen) + {goal}
        {
          var org :| org in orgs;
          if Has(relations, org, "manager", subject) || Has(relations, org, "knowledge_admin", subject) {
            GrantedIsDerivable(relations, goal, subject);
            return true;
          }
          orgs := orgs - {org};
        }
        ok := AnyParent(goal, subject, visiting, universe, old(visiting.seen));
      } else {
        ok := Has(relations, obj, relation, subject);
        if ok {
          GrantedIsDerivable(relations, goal, subject);
        }
      }
    }

    /** The loop over stored parents that ends both recursive cases. */
    method AnyParent(goal: Goal, subject: string, visiting: Visited, ghost universe: set<Goal>, ghost before: set<Goal>)
      returns (ok: bool)
      requires Bounds(relations, universe) && goal in visiting.seen && visiting.seen <= universe
      requires goal.relation == "can_read" || (goal.relation == "can_manage" && !IsOrganization(goal.obj))
      requires Exhausted(relations, subject, before, visiting.seen, {goal}) && before <= visiting.seen
      requires !Granted(relations, goal, subject)
      requires goal.relation == "can_read" ==> Goal(goal.obj, "can_manage") in visiting.seen
      modifies visiting
      ensures old(visiting.seen) <= visiting.seen <= universe
      ensures ok ==> Derivable(relations, goal, subject)
      ensures !ok ==> Exhausted(relations, subject, before, visiting.seen, {})
      decreases universe - visiting.seen, 1
    {
      var todo := Parents(relations, goal.obj);
      while todo != {}
        invariant todo <= Parents(relations, goal.obj)
        invariant old(visiting.seen) <= visiting.seen <= universe
        invariant Exhausted(relations, subject, before, visiting.seen, {goal})
        invariant forall p :: p in Parents(relations, goal.obj) - todo ==> Goal(p, goal.relation) in visiting.seen
      {
        var parent :| parent in todo;
        todo := todo - {parent};
        var next := Goal(parent, goal.relation);
        assert Inherits(relations, goal, next);
        var found := Can(parent, goal.relation, subject, visiting, universe);
        if found {
          InheritedIsDerivable(relations, goal, next, subject);
          return true;
        }
      }
      forall h | Inherits(relations, goal, h) ensures h in visiting.seen {
        assert h == Goal(h.obj, h.relation);
      }
      ok := false;
    }

    /** Decides one question from an empty visited set: exactly the derivable goals are allowed,
        whatever cycles the tuples contain and whatever order they are tried in. */
    method Decide(obj: string, relation: string, subject: string) returns (ok: bool)
      ensures ok <==> Derivable(relations, Goal(obj, relation), subject)
    {
      var goal := Goal(obj, relation);
      UniverseBounds(relations, goal);
      var visiting := new Visited();
      ok := Can(obj, relation, subject, visiting, Universe(relations, goal));
      if !ok {
        forall w ensures !Proves(relations, w, goal, subject) {
          ClosedSetRefutes(relations, visiting.seen, w, goal, subject);
        }
      }
    }

    method BatchCheck(reqs: seq<AuthzCheck>) returns (allowed: seq<bool>)
      ensures |allowed| == |reqs|
      ensures forall i :: 0 <= i < |reqs| ==>
                (allowed[i] <==> Derivable(relations, Goal(FormatObject(reqs[i].resourceID), MapRelation(reqs[i].action)),
                                           FormatUser(reqs[i].principal)))
    {
      allowed := [];
      for i := 0 to |reqs|
        invariant |allowed| == i
        invariant forall j :: 0 <= j < i ==>
                    (allowed[j] <==> Derivable(relations, Goal(FormatObject(reqs[j].resourceID), MapRelation(reqs[j].action)),
                                               FormatUser(reqs[j].principal)))
      {
        var ok := Decide(FormatObject(reqs[i].resourceID), MapRelation(reqs[i].action), FormatUser(reqs[i].principal));
        allowed := allowed + [ok];
      }
    }
  }

  function WithMember(members: map<string, set<string>>, org: string, subject: string): map<string, set<string>> {
    members[org := (if org in members then members[org] else {}) + {subject}]
  }

  /** A revoke after a grant of the same arguments leaves no trace of the tuple except for the
      two relations that grants rename and revokes do not. */
  lemma RevokeUndoesGrant(before: Relations, granted: Relations, revoked: Relations, obj: string, relation: string, subject: string)
    requires AddsExactly(before, granted, Tuple(obj, GrantedAs(relation), subject))
    requires forall o, r, s :: Has(revoked, o, r, s) <==>
               Has(granted, o, r, s) && !(o == obj && r == RevokedAs(relation) && s == subject)
    ensures !Has(revoked, obj, GrantedAs(relation), subject) <==> relation != "can_delete" && relation != "can_admin"
  {
    assert Has(granted, obj, GrantedAs(relation), subject);
  }
}
