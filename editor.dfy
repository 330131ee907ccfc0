/**
 * The PDF annotator component's state and its event handlers. Each React state variable is a
 * field; each handler is a method that updates the fields the way its `set...` calls do.
 * The pointer position, the text typed into the floating input, generated ids and the result of
 * loading the PDF arrive as parameters.
 */
module Editor {
  import opened Optional
  import opened JsStrings
  import opened Geometry
  import opened AnnotationModel
  import opened Colors
  import opened PdfExport

  /** What pressing the export button leads to. */
  datatype ExportOutcome =
    | NoDocument                                 // no PDF loaded: an error toast, nothing else
    | Downloaded(content: seq<PageCommand>)      // the document is saved with these drawings and downloaded
    | ExportFailed                               // an exception reached the catch: an error toast, no download

  /** The sizes the toolbar offers. */
  const FontSizes: seq<int> := [12, 16, 20, 24, 32]

  class Annotator {
    var mode: AnnotationType
    var annotations: seq<Annotation>
    /** The annotation a pointer gesture is building. */
    var current: Option<Annotation>
    var currentPage: nat
    var highlightColor: string
    var drawColor: string
    var textColor: string
    var isBold: bool
    var isItalic: bool
    var isUnderline: bool
    var fontSize: int
    /** The floating text input: shown or hidden, and the canvas point it is anchored at. */
    var textInputShown: bool
    var textInputX: real
    var textInputY: real
    /** The loaded PDF, as the heights of its pages; `None` while no document is loaded. */
    var pageHeights: Option<seq<real>>
    /** Everything drawn into the loaded PDF so far. */
    var drawn: seq<PageCommand>

    /**
     * The stored list only holds committed annotations; a gesture in progress is well shaped;
     * the chosen colours are ones the palette or the picker produces, and every annotation
     * carries such a colour or none.
     */
    ghost predicate Valid()
      reads this
    {
      && (forall a :: a in annotations ==> Committed(a) && EditorColor(a))
      && (current.Some? ==> InProgress(current.value) && EditorColor(current.value))
      && PickerColor(highlightColor) && PickerColor(drawColor) && PickerColor(textColor)
    }

    constructor ()
      ensures Valid()
      ensures mode == Draw && annotations == [] && current == None && currentPage == 0
      ensures highlightColor == "#FFFF00" && drawColor == "#000000" && textColor == "#000000"
      ensures !isBold && !isItalic && !isUnderline && fontSize == 16
      ensures !textInputShown && pageHeights == None && drawn == []
    {
      mode := Draw;
      annotations := [];
      current := None;
      currentPage := 0;
      highlightColor, drawColor, textColor := "#FFFF00", "#000000", "#000000";
      isBold, isItalic, isUnderline, fontSize := false, false, false, 16;
      textInputShown, textInputX, textInputY := false, 0.0, 0.0;
      pageHeights := None;
      drawn := [];
      assert AllHex("FFFF00") && AllHex("000000");
    }

    /** The annotations the canvas draws: those of the current page, in insertion order. */
    function Visible(): (r: seq<Annotation>)
      reads this
      ensures forall a :: a in r <==> a in annotations && a.page == currentPage
    {
      OnPage(annotations, currentPage)
    }

    /** `handleUndo`: drop the most recently added annotation; nothing happens on an empty list. */
    method Undo()
      requires Valid()
      modifies this`annotations
      ensures Valid()
      ensures old(annotations) == [] ==> annotations == []
      ensures old(annotations) != [] ==> old(annotations) == annotations + [old(annotations)[|old(annotations)| - 1]]
    {
      if annotations != [] {
        annotations := annotations[..|annotations| - 1];
      }
    }

    /** `handlePageChange`: the viewer reports the page now shown. */
    method ChangePage(page: nat)
      requires Valid()
      modifies this`currentPage
      ensures Valid()
      ensures currentPage == page
    {
      currentPage := page;
    }

    /** The viewer's `onDocumentLoad`: a newly shown document starts on its first page. */
    method DocumentShown()
      requires Valid()
      modifies this`currentPage
      ensures Valid()
      ensures currentPage == 0
    {
      currentPage := 0;
    }

    /** A mode button: choose what the next gesture makes. */
    method SetMode(m: AnnotationType)
      requires Valid()
      modifies this`mode
      ensures Valid()
      ensures mode == m
    {
      mode := m;
    }

    /**
     * `handleMouseDown`: start a stroke or a highlight at the pointer, or, in text mode, show
     * the text input there. Without a pointer position nothing happens.
     */
    method MouseDown(pointer: Option<Point>, id: string)
      requires Valid()
      modifies this`current, this`textInputShown, this`textInputX, this`textInputY
      ensures Valid()
      ensures pointer.None? || mode != Text ==>
        textInputShown == old(textInputShown) && textInputX == old(textInputX) && textInputY == old(textInputY)
      ensures pointer.None? || mode == Text ==> current == old(current)
      ensures pointer.Some? && mode == Draw ==>
        current == Some(DrawAnnotation(id, currentPage, [pointer.value.x, pointer.value.y], drawColor))
      ensures pointer.Some? && mode == Highlight ==>
        current == Some(HighlightAnnotation(id, currentPage, pointer.value.x, pointer.value.y, 0.0, 0.0, highlightColor))
      ensures pointer.Some? && mode == Signature ==>
        current == Some(SignatureAnnotation(id, currentPage, pointer.value.x, pointer.value.y,
                                            [pointer.value.x, pointer.value.y], ""))
      ensures pointer.Some? && mode == Text ==>
        textInputShown && textInputX == pointer.value.x && textInputY == pointer.value.y
    {
      if pointer.None? {
        return;
      }
      var p := pointer.value;
      match mode {
        case Draw =>
          current := Some(DrawAnnotation(id, currentPage, [p.x, p.y], drawColor));
        case Highlight =>
          current := Some(HighlightAnnotation(id, currentPage, p.x, p.y, 0.0, 0.0, highlightColor));
        case Text =>
          textInputX, textInputY := p.x, p.y;
          textInputShown := true;
        case Signature =>
          current := Some(SignatureAnnotation(id, currentPage, p.x, p.y, [p.x, p.y], ""));
      }
    }

    /**
     * `handleMouseMove`: a stroke gains the pointer as its next point (two more coordinates,
     * earlier ones unchanged); a highlight stretches to the pointer.
     */
    method MouseMove(pointer: Option<Point>)
      requires Valid()
      modifies this`current
      ensures Valid()
      ensures old(current).None? || pointer.None? ==> current == old(current)
      ensures old(current).Some? && pointer.Some? && old(current).value.IsStroke() ==>
        current.Some? && current.value == old(current).value.(points := old(current).value.points + [pointer.value.x, pointer.value.y])
      ensures old(current).Some? && pointer.Some? && old(current).value.HighlightAnnotation? ==>
        current.Some? && current.value == old(current).value.(width := pointer.value.x - old(current).value.x,
                                                              height := pointer.value.y - old(current).value.y)
    {
      if current.None? || pointer.None? {
        return;
      }
      var a, p := current.value, pointer.value;
      match a {
        case DrawAnnotation(id, page, points, color) =>
          current := Some(DrawAnnotation(id, page, points + [p.x, p.y], color));
        case HighlightAnnotation(_, _, x, y, _, _, _) =>
          current := Some(a.(width := p.x - x, height := p.y - y));
        case SignatureAnnotation(id, page, x, y, points, color) =>
          current := Some(SignatureAnnotation(id, page, x, y, points + [p.x, p.y], color));
        case TextAnnotation(_, _, _, _, _, _, _, _, _, _) =>
      }
    }

    /**
     * `handleMouseUp`: the gesture's annotation joins the list when the commit check accepts
     * it; the gesture ends whether or not it was kept.
     */
    method MouseUp()
      requires Valid()
      modifies this`annotations, this`current
      ensures Valid()
      ensures current == None
      ensures old(current).Some? && ShouldSave(old(current).value) ==> annotations == old(annotations) + [old(current).value]
      ensures old(current).None? || !ShouldSave(old(current).value) ==> annotations == old(annotations)
    {
      if current.Some? {
        var a := current.value;
        ShouldSaveCommits(a);
        if ShouldSave(a) {
          annotations := annotations + [a];
        }
        current := None;
      }
    }

    /**
     * `handleTextInput`: on Enter, text with something other than whitespace becomes a text
     * annotation at the input's anchor, with the current colour, size and styles, and the styles
     * and size go back to their defaults. The input is hidden either way.
     */
    method TextInput(key: string, value: string, id: string)
      requires Valid() && textInputShown
      modifies this`annotations, this`isBold, this`isItalic, this`isUnderline, this`fontSize, this`textInputShown
      ensures Valid()
      ensures key != "Enter" ==>
        && annotations == old(annotations) && textInputShown == old(textInputShown)
        && isBold == old(isBold) && isItalic == old(isItalic) && isUnderline == old(isUnderline)
        && fontSize == old(fontSize)
      ensures key == "Enter" ==> !textInputShown
      ensures key == "Enter" && Trim(value) != "" ==>
        && annotations == old(annotations) + [TextAnnotation(id, currentPage, textInputX, textInputY, value, textColor,
                                                             old(fontSize), old(isBold), old(isItalic), old(isUnderline))]
        && !isBold && !isItalic && !isUnderline && fontSize == 16
      ensures key == "Enter" && Trim(value) == "" ==>
        && annotations == old(annotations)
        && isBold == old(isBold) && isItalic == old(isItalic) && isUnderline == old(isUnderline)
        && fontSize == old(fontSize)
    {
      if key == "Enter" {
        if Trim(value) != "" {
          annotations := annotations + [TextAnnotation(id, currentPage, textInputX, textInputY, value, textColor,
                                                       fontSize, isBold, isItalic, isUnderline)];
          isBold, isItalic, isUnderline := false, false, false;
          fontSize := 16;
        }
        textInputShown := false;
      }
    }

    /** The bold, italic and underline buttons each flip their own flag. */
    method ToggleBold()
      requires Valid()
      modifies this`isBold
      ensures Valid()
      ensures isBold == !old(isBold)
    {
      isBold := !isBold;
    }

    method ToggleItalic()
      requires Valid()
      modifies this`isItalic
      ensures Valid()
      ensures isItalic == !old(isItalic)
    {
      isItalic := !isItalic;
    }

    method ToggleUnderline()
      requires Valid()
      modifies this`isUnderline
      ensures Valid()
      ensures isUnderline == !old(isUnderline)
    {
      isUnderline := !isUnderline;
    }

    /** A font-size button: the size of the next text annotation. */
    method ChooseFontSize(size: int)
      requires size in FontSizes
      requires Valid()
      modifies this`fontSize
      ensures Valid()
      ensures fontSize == size
    {
      fontSize := size;
    }

    /** The palette swatches and colour pickers: the colour of the next annotation of that kind. */
    method ChooseHighlightColor(color: string)
      requires Valid() && PickerColor(color)
      modifies this`highlightColor
      ensures Valid()
      ensures highlightColor == color
    {
      highlightColor := color;
    }

    method ChooseDrawColor(color: string)
      requires Valid() && PickerColor(color)
      modifies this`drawColor
      ensures Valid()
      ensures drawColor == color
    {
      drawColor := color;
    }

    method ChooseTextColor(color: string)
      requires Valid() && PickerColor(color)
      modifies this`textColor
      ensures Valid()
      ensures textColor == color
    {
      textColor := color;
    }

    /**
     * The document-loading effect: a PDF that parses becomes the document to draw into
     * (`None` stands for a load that threw; the error is only reported).
     */
    method LoadDocument(loaded: Option<seq<real>>)
      requires Valid()
      modifies this`pageHeights, this`drawn
      ensures Valid()
      ensures loaded.None? ==> pageHeights == old(pageHeights) && drawn == old(drawn)
      ensures loaded.Some? ==> pageHeights == loaded && drawn == []
    {
      if loaded.Some? {
        pageHeights := loaded;
        drawn := [];
      }
    }

    /**
     * `exportAnnotatedPDF`: draw every annotation into the loaded document and download it.
     * The drawing happens in the loaded document itself, so an export that fails part-way
     * leaves the drawings of the annotations before the failing one in it. The annotation list
     * is never changed.
     */
    method ExportDocument() returns (outcome: ExportOutcome)
      requires Valid()
      modifies this`drawn
      ensures Valid()
      ensures pageHeights.None? ==> outcome == NoDocument && drawn == old(drawn)
      ensures pageHeights.Some? ==>
        var run := Export(annotations, pageHeights.value);
        && drawn == old(drawn) + run.drawn
        && ((forall a :: a in annotations ==> ProperColor(a)) ==>
              forall pc :: pc in run.drawn ==> ByteChannels(pc.command.color))
        && outcome == (if run.Completed? then Downloaded(drawn) else ExportFailed)
    {
      if pageHeights.None? {
        return NoDocument;
      }
      assert AllEvenPoints(annotations) by {
        forall a | a in annotations ensures EvenPoints(a) { assert Committed(a); }
      }
      var run := ExportToPages(annotations, pageHeights.value);
      if forall a :: a in annotations ==> ProperColor(a) {
        ExportColors(annotations, pageHeights.value);
      }
      drawn := drawn + run.drawn;
      if run.Completed? {
        outcome := Downloaded(drawn);
      } else {
        outcome := ExportFailed;
      }
    }
  }
}
