/**
 * The identifier conventions of package `system` and the cascading-delete
 * reference type of package `v1`. The bodies of `system.IsAgentID`,
 * `system.IsWorkflowID` and `system.IsWebhookID` are not part of this model:
 * they are supplied as opaque predicates.
 */
module System {

  /** The three identifier predicates, left uninterpreted. */
  datatype Ids = Ids(
    isAgentID: string -> bool,
    isWorkflowID: string -> bool,
    isWebhookID: string -> bool)

  /** The type of object a deletion reference points at. */
  datatype RefType = Agent | Workflow

  /** A `v1.Ref`: when the named object is deleted, so is the object declaring the ref. */
  datatype Ref = Ref(objType: RefType, name: string)
}
