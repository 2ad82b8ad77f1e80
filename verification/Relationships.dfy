/** The relationship evaluator's rules (internal/adapters/openfga/memory.go): which can_read and
    can_manage goals a tuple store derives, and how one more tuple changes that. */
module Relationships {

  /** object -> relation -> subjects; the source's map[string]map[string]map[string]bool,
      whose stored booleans are always true. */
  type Relations = map<string, map<string, set<string>>>

  /** A computed question: does the subject have this relation to this object? */
  datatype Goal = Goal(obj: string, relation: string)

  datatype Tuple = Tuple(obj: string, relation: string, subject: string)

  function Subjects(rels: Relations, obj: string, relation: string): set<string> {
    if obj in rels && relation in rels[obj] then rels[obj][relation] else {}
  }

  predicate Has(rels: Relations, obj: string, relation: string, subject: string) {
    subject in Subjects(rels, obj, relation)
  }

  function Parents(rels: Relations, obj: string): set<string> {
    Subjects(rels, obj, "parent")
  }

  predicate IsOrganization(obj: string) {
    "organization:" <= obj
  }

  /** A goal answered by stored tuples alone, with no inheritance. */
  predicate Granted(rels: Relations, g: Goal, subject: string) {
    if g.relation == "can_read" then
      || Has(rels, g.obj, "reader", subject)
      || Has(rels, g.obj, "restricted_reader", subject)
      || Has(rels, g.obj, "owner", subject)
      || Has(rels, g.obj, "assignee", subject)
    else if g.relation == "can_manage" then
      if IsOrganization(g.obj) then
        || Has(rels, g.obj, "manager", subject)
        || Has(rels, g.obj, "knowledge_admin", subject)
        || Has(rels, g.obj, "owner", subject)
      else
        || Has(rels, g.obj, "owner", subject)
        || exists org :: org in Subjects(rels, g.obj, "organization") && Administers(rels, org, subject)
    else
      Has(rels, g.obj, g.relation, subject)
  }

  predicate Administers(rels: Relations, org: string, subject: string) {
    Has(rels, org, "manager", subject) || Has(rels, org, "knowledge_admin", subject)
  }

  /** One inheritance step: a goal holds whenever one of its successors does. */
  predicate Inherits(rels: Relations, g: Goal, h: Goal) {
    if g.relation == "can_read" then
      h == Goal(g.obj, "can_manage") || (h.relation == "can_read" && h.obj in Parents(rels, g.obj))
    else
      && g.relation == "can_manage" && !IsOrganization(g.obj)
      && h.relation == "can_manage" && h.obj in Parents(rels, g.obj)
  }

  /* ---------- declarative semantics ---------- */

  ghost predicate Walk(rels: Relations, w: seq<Goal>) {
    && |w| > 0
    && forall i :: 0 <= i < |w| - 1 ==> Inherits(rels, w[i], w[i + 1])
  }

  ghost predicate Proves(rels: Relations, w: seq<Goal>, g: Goal, subject: string) {
    Walk(rels, w) && w[0] == g && Granted(rels, w[|w| - 1], subject)
  }

  /** Some chain of inheritance steps ends in a stored grant. */
  ghost predicate Derivable(rels: Relations, g: Goal, subject: string) {
    exists w :: Proves(rels, w, g, subject)
  }

  ghost predicate CanRead(rels: Relations, obj: string, subject: string) {
    Derivable(rels, Goal(obj, "can_read"), subject)
  }

  ghost predicate CanManage(rels: Relations, obj: string, subject: string) {
    Derivable(rels, Goal(obj, "can_manage"), subject)
  }

  /** c walks from object to object along stored parent tuples. */
  ghost predicate ParentChain(rels: Relations, c: seq<string>) {
    && |c| > 0
    && forall i :: 0 <= i < |c| - 1 ==> c[i + 1] in Parents(rels, c[i])
  }

  /** The chain is read under can_read up to object k and under can_manage from object k on;
      no switch happens when k is the chain's length. */
  ghost predicate ReadEvidence(rels: Relations, c: seq<string>, k: nat, obj: string, subject: string) {
    && ParentChain(rels, c) && c[0] == obj && k <= |c|
    && (forall i :: k <= i < |c| - 1 ==> !IsOrganization(c[i]))
    && Granted(rels, Goal(c[|c| - 1], if k == |c| then "can_read" else "can_manage"), subject)
  }

  ghost predicate ReachesByParents(rels: Relations, from: string, to: string) {
    exists c :: ParentChain(rels, c) && c[0] == from && c[|c| - 1] == to
  }

  /* ---------- elementary facts about derivations ---------- */

  lemma GrantedIsDerivable(rels: Relations, g: Goal, subject: string)
    requires Granted(rels, g, subject)
    ensures Derivable(rels, g, subject)
  {
    assert Proves(rels, [g], g, subject);
  }

  lemma InheritedIsDerivable(rels: Relations, g: Goal, h: Goal, subject: string)
    requires Inherits(rels, g, h) && Derivable(rels, h, subject)
    ensures Derivable(rels, g, subject)
  {
    var w :| Proves(rels, w, h, subject);
    assert Proves(rels, [g] + w, g, subject);
  }

  /** Every derivation is a grant, or a step followed by a shorter derivation. */
  lemma DerivationUnfolds(rels: Relations, w: seq<Goal>, g: Goal, subject: string)
    requires Proves(rels, w, g, subject)
    ensures |w| == 1 ==> Granted(rels, g, subject)
    ensures |w| > 1 ==> Inherits(rels, g, w[1]) && Proves(rels, w[1..], w[1], subject)
  {
    if |w| > 1 {
      var v := w[1..];
      assert forall i :: 0 <= i < |v| ==> v[i] == w[i + 1];
    }
  }

  /** A set of goals that holds no granted goal and is closed under steps holds no derivable goal. */
  lemma {:induction false} ClosedSetRefutes(rels: Relations, seen: set<Goal>, w: seq<Goal>, g: Goal, subject: string)
    requires g in seen
    requires forall x :: x in seen ==> !Granted(rels, x, subject)
    requires forall x, y :: x in seen && Inherits(rels, x, y) ==> y in seen
    ensures !Proves(rels, w, g, subject)
    decreases |w|
  {
    if Proves(rels, w, g, subject) {
      DerivationUnfolds(rels, w, g, subject);
      if |w| > 1 {
        ClosedSetRefutes(rels, seen, w[1..], w[1], subject);
      }
    }
  }

  /* ---------- least fixpoint of the model's rules ---------- */

  ghost predicate RespectsModel(rels: Relations, subject: string, answer: iset<Goal>) {
    && (forall g :: Granted(rels, g, subject) ==> g in answer)
    && (forall g, h :: Inherits(rels, g, h) && h in answer ==> g in answer)
  }

  lemma DerivableRespectsModel(rels: Relations, subject: string)
    ensures RespectsModel(rels, subject, iset g | Derivable(rels, g, subject))
  {
    forall g | Granted(rels, g, subject) ensures Derivable(rels, g, subject) {
      GrantedIsDerivable(rels, g, subject);
    }
    forall g, h | Inherits(rels, g, h) && Derivable(rels, h, subject) ensures Derivable(rels, g, subject) {
      InheritedIsDerivable(rels, g, h, subject);
    }
  }

  lemma DerivableIsLeast(rels: Relations, subject: string, answer: iset<Goal>, g: Goal)
    requires RespectsModel(rels, subject, answer)
    requires Derivable(rels, g, subject)
    ensures g in answer
  {
    var w :| Proves(rels, w, g, subject);
    WalkStaysInside(rels, subject, answer, w, g);
  }

  lemma {:induction false} WalkStaysInside(rels: Relations, subject: string, answer: iset<Goal>, w: seq<Goal>, g: Goal)
    requires RespectsModel(rels, subject, answer)
    requires Proves(rels, w, g, subject)
    ensures g in answer
    decreases |w|
  {
    DerivationUnfolds(rels, w, g, subject);
    if |w| > 1 {
      WalkStaysInside(rels, subject, answer, w[1..], w[1]);
    }
  }

  /* ---------- parent chains with at most one switch to can_manage ---------- */

  lemma CanReadIsOneSwitchChain(rels: Relations, obj: string, subject: string)
    ensures CanRead(rels, obj, subject) <==> exists c, k :: ReadEvidence(rels, c, k, obj, subject)
  {
    if CanRead(rels, obj, subject) {
      var w :| Proves(rels, w, Goal(obj, "can_read"), subject);
      var c, k := EvidenceFromWalk(rels, w, obj, subject);
    }
    if exists c, k :: ReadEvidence(rels, c, k, obj, subject) {
      var c, k :| ReadEvidence(rels, c, k, obj, subject);
      DerivationFromEvidence(rels, c, k, obj, subject);
    }
  }

  lemma {:induction false} EvidenceFromWalk(rels: Relations, w: seq<Goal>, obj: string, subject: string)
    returns (c: seq<string>, k: nat)
    requires Proves(rels, w, Goal(obj, "can_read"), subject)
    ensures ReadEvidence(rels, c, k, obj, subject)
    decreases |w|
  {
    DerivationUnfolds(rels, w, Goal(obj, "can_read"), subject);
    if |w| == 1 {
      c, k := [obj], 1;
    } else if w[1].relation == "can_read" {
      var c', k' := EvidenceFromWalk(rels, w[1..], w[1].obj, subject);
      c, k := [obj] + c', k' + 1;
    } else {
      c := ManageChain(rels, w[1..], obj, subject);
      k := 0;
    }
  }

  lemma {:induction false} ManageChain(rels: Relations, w: seq<Goal>, obj: string, subject: string)
    returns (c: seq<string>)
    requires Proves(rels, w, Goal(obj, "can_manage"), subject)
    ensures ReadEvidence(rels, c, 0, obj, subject)
    decreases |w|
  {
    DerivationUnfolds(rels, w, Goal(obj, "can_manage"), subject);
    if |w| == 1 {
      c := [obj];
    } else {
      var c' := ManageChain(rels, w[1..], w[1].obj, subject);
      c := [obj] + c';
    }
  }

  lemma {:induction false} DerivationFromEvidence(rels: Relations, c: seq<string>, k: nat, obj: string, subject: string)
    requires ReadEvidence(rels, c, k, obj, subject)
    ensures CanRead(rels, obj, subject)
    ensures k == 0 ==> CanManage(rels, obj, subject)
    decreases |c|
  {
    var read, manage := Goal(obj, "can_read"), Goal(obj, "can_manage");
    if |c| == 1 {
      GrantedIsDerivable(rels, if k == 1 then read else manage, subject);
    } else {
      var rest := c[1..];
      assert forall i :: 0 <= i < |rest| ==> rest[i] == c[i + 1];
      var k' := if k == 0 then 0 else k - 1;
      assert ReadEvidence(rels, rest, k', rest[0], subject);
      DerivationFromEvidence(rels, rest, k', rest[0], subject);
      var r := if k == 0 then "can_manage" else "can_read";
      InheritedIsDerivable(rels, Goal(obj, r), Goal(rest[0], r), subject);
    }
    if k == 0 {
      InheritedIsDerivable(rels, read, manage, subject);
    }
  }

  /* ---------- how grants and revokes change the answers ---------- */

  ghost predicate Extends(small: Relations, big: Relations) {
    forall o, r, s :: Has(small, o, r, s) ==> Has(big, o, r, s)
  }

  ghost predicate AddsExactly(before: Relations, after: Relations, t: Tuple) {
    forall o, r, s :: Has(after, o, r, s) <==> Has(before, o, r, s) || t == Tuple(o, r, s)
  }

  lemma StepsAreMonotone(small: Relations, big: Relations, g: Goal, h: Goal, subject: string)
    requires Extends(small, big)
    ensures Granted(small, g, subject) ==> Granted(big, g, subject)
    ensures Inherits(small, g, h) ==> Inherits(big, g, h)
  {
    assert forall p :: p in Parents(small, g.obj) ==> Has(small, g.obj, "parent", p);
    assert forall p :: p in Subjects(small, g.obj, "organization") ==> Has(small, g.obj, "organization", p);
  }

  /** More tuples never lose an answer; so a grant only enlarges access and a revoke only shrinks it. */
  lemma AccessIsMonotone(small: Relations, big: Relations, g: Goal, subject: string)
    requires Extends(small, big)
    requires Derivable(small, g, subject)
    ensures Derivable(big, g, subject)
  {
    var w :| Proves(small, w, g, subject);
    forall i | 0 <= i < |w| - 1 ensures Inherits(big, w[i], w[i + 1]) {
      StepsAreMonotone(small, big, w[i], w[i + 1], subject);
    }
    StepsAreMonotone(small, big, w[|w| - 1], g, subject);
    assert Proves(big, w, g, subject);
  }

  lemma ReadFollowsParents(rels: Relations, c: seq<string>, subject: string)
    requires ParentChain(rels, c) && CanRead(rels, c[|c| - 1], subject)
    ensures CanRead(rels, c[0], subject)
    decreases |c|
  {
    if |c| > 1 {
      var rest := c[1..];
      assert forall i :: 0 <= i < |rest| ==> rest[i] == c[i + 1];
      ReadFollowsParents(rels, rest, subject);
      InheritedIsDerivable(rels, Goal(c[0], "can_read"), Goal(rest[0], "can_read"), subject);
    }
  }

  lemma ManageImpliesRead(rels: Relations, obj: string, subject: string)
    requires CanManage(rels, obj, subject)
    ensures CanRead(rels, obj, subject)
  {
    InheritedIsDerivable(rels, Goal(obj, "can_read"), Goal(obj, "can_manage"), subject);
  }

  lemma ReachesOneFurther(rels: Relations, a: string, b: string, to: string)
    requires b in Parents(rels, a) && ReachesByParents(rels, b, to)
    ensures ReachesByParents(rels, a, to)
  {
    var c :| ParentChain(rels, c) && c[0] == b && c[|c| - 1] == to;
    var d := [a] + c;
    assert ParentChain(rels, d) && d[0] == a && d[|d| - 1] == to;
  }

  /** Adding the parent tuple (child, parent) lets a subject read exactly the objects it could
      read before, plus -- if it could already read the parent -- everything that reached the child. */
  lemma AddedParentReads(before: Relations, after: Relations, child: string, parent: string, obj: string, subject: string)
    requires AddsExactly(before, after, Tuple(child, "parent", parent))
    ensures CanRead(after, obj, subject) <==>
            || CanRead(before, obj, subject)
            || (ReachesByParents(before, obj, child) && CanRead(before, parent, subject))
  {
    if CanRead(after, obj, subject) {
      var w :| Proves(after, w, Goal(obj, "can_read"), subject);
      NewAccessGoesThroughParent(before, after, child, parent, w, subject);
    }
    if CanRead(before, obj, subject) {
      AccessIsMonotone(before, after, Goal(obj, "can_read"), subject);
    }
    if ReachesByParents(before, obj, child) && CanRead(before, parent, subject) {
      ParentOpensChild(before, after, child, parent, obj, subject);
    }
  }

  lemma ParentOpensChild(before: Relations, after: Relations, child: string, parent: string, obj: string, subject: string)
    requires AddsExactly(before, after, Tuple(child, "parent", parent))
    requires ReachesByParents(before, obj, child) && CanRead(before, parent, subject)
    ensures CanRead(after, obj, subject)
  {
    AccessIsMonotone(before, after, Goal(parent, "can_read"), subject);
    assert Has(after, child, "parent", parent);
    InheritedIsDerivable(after, Goal(child, "can_read"), Goal(parent, "can_read"), subject);
    var c :| ParentChain(before, c) && c[0] == obj && c[|c| - 1] == child;
    forall i | 0 <= i < |c| - 1 ensures c[i + 1] in Parents(after, c[i]) {
      assert Has(before, c[i], "parent", c[i + 1]);
    }
    ReadFollowsParents(after, c, subject);
  }

  lemma AddedStep(before: Relations, after: Relations, child: string, parent: string, g: Goal, h: Goal)
    requires AddsExactly(before, after, Tuple(child, "parent", parent))
    requires Inherits(after, g, h)
    ensures Inherits(before, g, h) || (g.obj == child && h.obj == parent && g.relation == h.relation)
    ensures h.relation == "can_read" || h.relation == "can_manage"
    ensures h.obj == g.obj || h.obj in Parents(before, g.obj) || (g.obj == child && h.obj == parent)
  {
    assert Has(after, g.obj, "parent", h.obj) ==>
             Has(before, g.obj, "parent", h.obj) || (g.obj == child && h.obj == parent);
  }

  /** Every derivation in the larger store either exists already or passes through the new tuple. */
  lemma {:induction false} NewAccessGoesThroughParent(
      before: Relations, after: Relations, child: string, parent: string, w: seq<Goal>, subject: string)
    requires AddsExactly(before, after, Tuple(child, "parent", parent))
    requires |w| > 0 && Proves(after, w, w[0], subject)
    requires w[0].relation == "can_read" || w[0].relation == "can_manage"
    ensures || Derivable(before, w[0], subject)
            || (ReachesByParents(before, w[0].obj, child) && CanRead(before, parent, subject))
    decreases |w|
  {
    DerivationUnfolds(after, w, w[0], subject);
    if |w| == 1 {
      GrantsIgnoreParents(before, after, child, parent, w[0], subject);
      GrantedIsDerivable(before, w[0], subject);
    } else {
      AddedStep(before, after, child, parent, w[0], w[1]);
      NewAccessGoesThroughParent(before, after, child, parent, w[1..], subject);
      NewAccessStep(before, child, parent, w[0], w[1], subject);
    }
  }

  lemma NewAccessStep(before: Relations, child: string, parent: string, g: Goal, h: Goal, subject: string)
    requires h.relation == "can_read" || h.relation == "can_manage"
    requires Inherits(before, g, h) || (g.obj == child && h.obj == parent && g.relation == h.relation)
    requires h.obj == g.obj || h.obj in Parents(before, g.obj) || (g.obj == child && h.obj == parent)
    requires || Derivable(before, h, subject)
             || (ReachesByParents(before, h.obj, child) && CanRead(before, parent, subject))
    ensures || Derivable(before, g, subject)
            || (ReachesByParents(before, g.obj, child) && CanRead(before, parent, subject))
  {
    if g.obj == child && h.obj == parent {
      assert ParentChain(before, [child]);
      if Derivable(before, h, subject) && h.relation == "can_manage" {
        ManageImpliesRead(before, parent, subject);
      }
    } else if Derivable(before, h, subject) {
      InheritedIsDerivable(before, g, h, subject);
    } else if h.obj != g.obj {
      ReachesOneFurther(before, g.obj, h.obj, child);
    }
  }

  lemma GrantsIgnoreParents(before: Relations, after: Relations, child: string, parent: string, g: Goal, subject: string)
    requires AddsExactly(before, after, Tuple(child, "parent", parent))
    requires g.relation == "can_read" || g.relation == "can_manage"
    ensures Granted(before, g, subject) <==> Granted(after, g, subject)
  {
    assert forall o, s :: Has(before, o, "organization", s) <==> Has(after, o, "organization", s);
    assert forall org :: Administers(before, org, subject) <==> Administers(after, org, subject);
    assert forall org :: org in Subjects(before, g.obj, "organization") <==> Has(before, g.obj, "organization", org);
    assert forall org :: org in Subjects(after, g.obj, "organization") <==> Has(after, g.obj, "organization", org);
  }
}
