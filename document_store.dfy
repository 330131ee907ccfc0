/**
 * The global document store: the open document, its annotations and the selected tool. Each
 * action merges a new value for one field into the state and leaves the other fields alone.
 */
module DocumentStore {
  import opened Optional
  import opened AnnotationModel
  import opened StoreModel

  /** The uploaded file's bytes. */
  type DocumentFile = seq<bv8>

  class Store {
    var document: Option<DocumentFile>
    var annotations: seq<StoreAnnotation>
    var currentTool: Option<AnnotationType>

    constructor ()
      ensures document == None && annotations == [] && currentTool == None
    {
      document := None;
      annotations := [];
      currentTool := None;
    }

    /** `addAnnotation`: append the annotation as given. */
    method AddAnnotation(a: StoreAnnotation)
      modifies this`annotations
      ensures annotations == Append(old(annotations), a)
    {
      annotations := annotations + [a];
    }

    /** `removeAnnotation`: keep every annotation whose id differs. */
    method RemoveAnnotation(id: string)
      modifies this`annotations
      ensures annotations == RemoveById(old(annotations), id)
    {
      annotations := RemoveById(annotations, id);
    }

    /** `setCurrentTool`: only the tool changes. */
    method SetCurrentTool(tool: Option<AnnotationType>)
      modifies this`currentTool
      ensures currentTool == tool
      ensures annotations == old(annotations) && document == old(document)
    {
      currentTool := tool;
    }
  }
}
