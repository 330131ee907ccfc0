/**
 * The shared annotation record of the store and the tools hook, and the list transitions both
 * use: append, remove by id (`filter`) and update by id (`map` with an object spread).
 */
module StoreModel {
  import opened Optional
  import opened Sequences
  import opened AnnotationModel

  datatype Coordinates = Coordinates(x: real, y: real, width: Option<real>, height: Option<real>)

  datatype StoreAnnotation = StoreAnnotation(
    id: string, kind: AnnotationType, color: string, coordinates: Coordinates, content: Option<string>)

  /** An annotation without its id, as handed to the tools hook's `addAnnotation`. */
  datatype Draft = Draft(kind: AnnotationType, color: string, coordinates: Coordinates, content: Option<string>)

  /** `{ ...draft, id }`. */
  function WithId(draft: Draft, id: string): (a: StoreAnnotation)
    ensures a.id == id
    ensures Draft(a.kind, a.color, a.coordinates, a.content) == draft
  {
    StoreAnnotation(id, draft.kind, draft.color, draft.coordinates, draft.content)
  }

  /** A `Partial<Annotation>`: each top-level field is present (`Some`) or absent. */
  datatype Patch = Patch(
    id: Option<string>, kind: Option<AnnotationType>, color: Option<string>,
    coordinates: Option<Coordinates>, content: Option<string>)

  const NoChange: Patch := Patch(None, None, None, None, None)

  function Pick<T>(update: Option<T>, keep: T): T {
    if update.Some? then update.value else keep
  }

  /** `{ ...a, ...patch }`: the fields present in the patch replace those of `a`. */
  function ApplyPatch(a: StoreAnnotation, patch: Patch): StoreAnnotation {
    StoreAnnotation(
      Pick(patch.id, a.id), Pick(patch.kind, a.kind), Pick(patch.color, a.color),
      Pick(patch.coordinates, a.coordinates),
      if patch.content.Some? then patch.content else a.content)
  }

  /**
   * A patch changes exactly the fields it carries: each carried field takes the patch's value
   * and every other field keeps its old one. The empty patch changes nothing, and applying
   * a patch twice is the same as applying it once.
   */
  lemma ApplyPatchFields(a: StoreAnnotation, patch: Patch)
    ensures var r := ApplyPatch(a, patch);
      && (patch.id.Some? ==> r.id == patch.id.value) && (patch.id.None? ==> r.id == a.id)
      && (patch.kind.Some? ==> r.kind == patch.kind.value) && (patch.kind.None? ==> r.kind == a.kind)
      && (patch.color.Some? ==> r.color == patch.color.value) && (patch.color.None? ==> r.color == a.color)
      && (patch.coordinates.Some? ==> r.coordinates == patch.coordinates.value)
      && (patch.coordinates.None? ==> r.coordinates == a.coordinates)
      && (patch.content.Some? ==> r.content == patch.content) && (patch.content.None? ==> r.content == a.content)
    ensures ApplyPatch(a, NoChange) == a
    ensures ApplyPatch(ApplyPatch(a, patch), patch) == ApplyPatch(a, patch)
  {
  }

  /** `[...annotations, a]`. */
  function Append(annotations: seq<StoreAnnotation>, a: StoreAnnotation): (r: seq<StoreAnnotation>)
    ensures |r| == |annotations| + 1 && r[|annotations|] == a && r[..|annotations|] == annotations
  {
    annotations + [a]
  }

  function IdIsNot(id: string): StoreAnnotation -> bool {
    (a: StoreAnnotation) => a.id != id
  }

  /** `annotations.filter(a => a.id !== id)`. */
  function RemoveById(annotations: seq<StoreAnnotation>, id: string): (r: seq<StoreAnnotation>)
    ensures forall a :: a in r <==> a in annotations && a.id != id
  {
    Filter(IdIsNot(id), annotations)
  }

  /** Removal keeps the order of what remains: removing from a concatenation removes from each part. */
  lemma RemoveByIdConcat(front: seq<StoreAnnotation>, back: seq<StoreAnnotation>, id: string)
    ensures RemoveById(front + back, id) == RemoveById(front, id) + RemoveById(back, id)
  {
    FilterConcat(IdIsNot(id), front, back);
  }

  /** Every annotation with another id survives removal as many times as it occurred. */
  lemma RemoveByIdCount(annotations: seq<StoreAnnotation>, id: string, a: StoreAnnotation)
    ensures multiset(RemoveById(annotations, id))[a] == if a.id != id then multiset(annotations)[a] else 0
  {
    FilterCount(IdIsNot(id), annotations, a);
  }

  /** Removing an id that no annotation carries leaves the list as it was. */
  lemma RemoveAbsentId(annotations: seq<StoreAnnotation>, id: string)
    requires forall a :: a in annotations ==> a.id != id
    ensures RemoveById(annotations, id) == annotations
  {
    FilterAllKept(IdIsNot(id), annotations);
  }

  /** Removing the same id twice is the same as removing it once. */
  lemma RemoveIdempotent(annotations: seq<StoreAnnotation>, id: string)
    ensures RemoveById(RemoveById(annotations, id), id) == RemoveById(annotations, id)
  {
    RemoveAbsentId(RemoveById(annotations, id), id);
  }

  /** `annotations.map(a => a.id === id ? { ...a, ...patch } : a)`. */
  function UpdateById(annotations: seq<StoreAnnotation>, id: string, patch: Patch): (r: seq<StoreAnnotation>)
    ensures |r| == |annotations|
  {
    if annotations == [] then []
    else [if annotations[0].id == id then ApplyPatch(annotations[0], patch) else annotations[0]]
         + UpdateById(annotations[1..], id, patch)
  }

  /**
   * Updating keeps length and positions: an annotation with another id stays as it is, one with
   * the id takes the patched fields and keeps the rest.
   */
  lemma {:induction false} UpdateByIdAt(annotations: seq<StoreAnnotation>, id: string, patch: Patch, i: nat)
    requires i < |annotations|
    ensures annotations[i].id != id ==> UpdateById(annotations, id, patch)[i] == annotations[i]
    ensures annotations[i].id == id ==> UpdateById(annotations, id, patch)[i] == ApplyPatch(annotations[i], patch)
  {
    if i > 0 {
      UpdateByIdAt(annotations[1..], id, patch, i - 1);
    }
  }

  /** Updating an id that no annotation carries leaves the list as it was. */
  lemma {:induction false} UpdateAbsentId(annotations: seq<StoreAnnotation>, id: string, patch: Patch)
    requires forall a :: a in annotations ==> a.id != id
    ensures UpdateById(annotations, id, patch) == annotations
  {
    if annotations != [] {
      assert annotations[0] in annotations;
      assert forall a :: a in annotations[1..] ==> a in annotations;
      UpdateAbsentId(annotations[1..], id, patch);
      assert [annotations[0]] + annotations[1..] == annotations;
    }
  }
}
