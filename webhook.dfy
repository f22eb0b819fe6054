/**
 * The `Webhook` resource (package `v1`): its alias accessors, the
 * alias-assigned flag the alias controller sets in place, and the
 * cascading-delete reference it declares.
 */
module Webhooks {
  import opened Wrappers
  import opened System

  /** The part of `types.WebhookManifest` the model reads. */
  datatype WebhookManifest = WebhookManifest(alias: string, workflow: string, description: string)

  datatype WebhookSpec = WebhookSpec(manifest: WebhookManifest, tokenHash: seq<bv8>)

  /** `lastSuccessfulRunCompleted` is a timestamp, kept as seconds when present. */
  datatype WebhookStatus = WebhookStatus(alias: string, aliasAssigned: bool, lastSuccessfulRunCompleted: Option<int>)

  class Webhook {
    var spec: WebhookSpec
    var status: WebhookStatus

    constructor (spec: WebhookSpec, status: WebhookStatus)
      ensures this.spec == spec && this.status == status
    {
      this.spec := spec;
      this.status := status;
    }

    /** The alias the webhook asks for is the one in its manifest. */
    function GetAliasName(): (alias: string)
      reads this
      ensures alias == spec.manifest.alias
    {
      spec.manifest.alias
    }

    /** Whether the alias controller has recorded the alias as assigned. */
    function IsAssigned(): (flag: bool)
      reads this
      ensures flag == status.aliasAssigned
    {
      status.aliasAssigned
    }

    /**
     * Records the alias as assigned. Only the flag changes: spec, the status
     * alias and the last-run time stay, and on an assigned webhook nothing changes.
     */
    method SetAssigned()
      modifies this
      ensures IsAssigned()
      ensures spec == old(spec) && GetAliasName() == old(GetAliasName())
      ensures status == old(status).(aliasAssigned := true)
      ensures old(IsAssigned()) ==> status == old(status)
    {
      status := status.(aliasAssigned := true);
    }

    /**
     * The webhook is deleted with the workflow named in its manifest, but only
     * when that name passes `IsWebhookID`, as the code is written.
     */
    function DeleteRefs(ids: Ids): (refs: seq<Ref>)
      reads this
      ensures |refs| <= 1
      ensures |refs| == 1 <==> ids.isWebhookID(spec.manifest.workflow)
      ensures forall i :: 0 <= i < |refs| ==> refs[i] == Ref(Workflow, spec.manifest.workflow)
    {
      if ids.isWebhookID(spec.manifest.workflow) then [Ref(Workflow, spec.manifest.workflow)] else []
    }

    /**
     * The evidently intended reference: the webhook is deleted with its workflow
     * whenever the manifest names a workflow by its ID.
     */
    function IntendedDeleteRefs(ids: Ids): (refs: seq<Ref>)
      reads this
      ensures |refs| <= 1
      ensures |refs| == 1 <==> ids.isWorkflowID(spec.manifest.workflow)
      ensures forall i :: 0 <= i < |refs| ==> refs[i] == Ref(Workflow, spec.manifest.workflow)
    {
      if ids.isWorkflowID(spec.manifest.workflow) then [Ref(Workflow, spec.manifest.workflow)] else []
    }
  }

  /**
   * As written, a webhook whose manifest names a workflow by a workflow ID that
   * is not also a webhook ID declares no reference, so deleting the workflow
   * leaves the webhook behind; the intended reference would name the workflow.
   */
  lemma WorkflowIDNotReferenced(w: Webhook, ids: Ids)
    requires ids.isWorkflowID(w.spec.manifest.workflow)
    requires !ids.isWebhookID(w.spec.manifest.workflow)
    ensures w.DeleteRefs(ids) == []
    ensures w.IntendedDeleteRefs(ids) == [Ref(Workflow, w.spec.manifest.workflow)]
  {
  }
}
