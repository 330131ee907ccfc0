/**
 * The `useAnnotationTools` hook: a list of annotations and the selected tool, with operations
 * that replace the list by a new one built from the old.
 */
module AnnotationTools {
  import opened Optional
  import opened AnnotationModel
  import opened StoreModel

  class Tools {
    var annotations: seq<StoreAnnotation>
    var currentTool: Option<AnnotationType>

    constructor ()
      ensures annotations == [] && currentTool == None
    {
      annotations := [];
      currentTool := None;
    }

    /** `addAnnotation`: append the draft under the freshly generated id `id`. */
    method AddAnnotation(draft: Draft, id: string)
      modifies this`annotations
      ensures annotations == Append(old(annotations), WithId(draft, id))
    {
      annotations := annotations + [WithId(draft, id)];
    }

    /** `removeAnnotation`: keep every annotation whose id differs. */
    method RemoveAnnotation(id: string)
      modifies this`annotations
      ensures annotations == RemoveById(old(annotations), id)
    {
      annotations := RemoveById(annotations, id);
    }

    /** `updateAnnotation`: patch every annotation carrying the id. */
    method UpdateAnnotation(id: string, patch: Patch)
      modifies this`annotations
      ensures annotations == UpdateById(old(annotations), id, patch)
    {
      annotations := UpdateById(annotations, id, patch);
    }

    /** `setCurrentTool`: only the tool changes. */
    method SetCurrentTool(tool: Option<AnnotationType>)
      modifies this`currentTool
      ensures currentTool == tool
      ensures annotations == old(annotations)
    {
      currentTool := tool;
    }
  }
}
