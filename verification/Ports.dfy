/** The value types that the components exchange (internal/ports/types.go).
    Times are whole nanoseconds. */
module Ports {

  datatype Option<+T> = None | Some(value: T)

  const EDGE_PARENT := "parent"
  const ACTIVE := "ACTIVE"
  const TOMBSTONED := "TOMBSTONED"
  const PURGE_PENDING := "PURGE_PENDING"
  const PURGED := "PURGED"
  const PLACEHOLDER := "PLACEHOLDER"
  const ENSURED := "ENSURED"
  const ACCEPTED := "ACCEPTED"

  const SECOND: nat := 1_000_000_000

  type Attributes = map<string, string>

  datatype GraphEdge = GraphEdge(
    edgeID: string, orgID: string, fromID: string, toID: string, predicate_: string,
    confidence: real, state: string, syncAuthz: bool, attributes: Attributes,
    createdAt: int, updatedAt: int)

  /** The fact that an edge states. */
  datatype Triple = Triple(fromID: string, predicate_: string, toID: string)

  datatype Record = Record(
    resourceID: string, orgID: string, kind: string, title: string, classification: string,
    labels: seq<string>, sourceSystem: string, externalID: string, currentRevID: string,
    state: string, attributes: Attributes, createdAt: int, updatedAt: int)

  /** A record state that hides the resource from every read surface. */
  predicate IsTombstoned(state: string) {
    state == TOMBSTONED || state == PURGE_PENDING || state == PURGED
  }

  predicate IsPlaceholder(state: string) {
    state == PLACEHOLDER || state == ENSURED
  }

  function ResourceObject(resourceID: string): string {
    "resource:" + resourceID
  }

  /** Only an explicitly synchronized parent edge asks for authorization inheritance. */
  predicate NeedsSynchronization(e: GraphEdge) {
    e.syncAuthz && e.predicate_ == EDGE_PARENT
  }

  /** Seconds to wait after the given number of failed attempts: two to the power min(attempts, 6). */
  function BackoffSeconds(attempts: nat): (s: nat)
    ensures 1 <= s <= 64
  {
    [1, 2, 4, 8, 16, 32, 64][if attempts < 6 then attempts else 6]
  }
}
