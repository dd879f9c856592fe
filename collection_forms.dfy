/** The create and edit collection dialogs. Each keeps its form state in
    fields that its handlers update in sequence; the remote create or update
    call is not performed, its outcome is a parameter of the step that
    follows it. */
module CollectionForms {
  import opened Types
  import opened ImageList

  /** What the form sends to the collection store. */
  datatype CollectionPayload = CollectionPayload(name: string, description: string, preview_images: seq<string>)

  const CreateFailedMessage: string := "Error al crear la colección."
  const UpdateFailedMessage: string := "Error al actualizar la colección."

  /** The payload built from the form's fields: the name and description as
      typed and only the non-blank image entries, in order. */
  function PayloadOf(name: string, description: string, images: seq<string>): (p: CollectionPayload)
    ensures p.name == name && p.description == description
    ensures |p.preview_images| <= |images|
    ensures forall k :: 0 <= k < |p.preview_images| ==> !Text.IsBlank(p.preview_images[k])
  {
    CollectionPayload(name, description, Submitted(images))
  }

  /** A payload never carries more images than the form holds, so at most
      three from a form that holds at most three. */
  lemma PayloadBounded(name: string, description: string, images: seq<string>)
    requires |images| <= MaxImages
    ensures |PayloadOf(name, description, images).preview_images| <= MaxImages
  {
  }

  class CreateCollectionForm {
    var isOpen: bool
    var name: string
    var description: string
    var previewImages: seq<string>
    var loading: bool
    var error: Option<string>

    /** The image list never grows beyond three entries. */
    ghost predicate Valid()
      reads this
    {
      |previewImages| <= MaxImages
    }

    /** A closed dialog with an empty name and description and a single
        empty image entry. */
    constructor ()
      ensures Valid()
      ensures !isOpen && name == "" && description == ""
      ensures previewImages == Initial()
      ensures !loading && error == None
    {
      isOpen := false;
      name := "";
      description := "";
      previewImages := Initial();
      loading := false;
      error := None;
    }

    /** The dialog's open-state handler. */
    method SetOpen(open: bool)
      modifies this`isOpen
      ensures isOpen == open
    {
      isOpen := open;
    }

    method SetName(value: string)
      modifies this`name
      ensures name == value
    {
      name := value;
    }

    method SetDescription(value: string)
      modifies this`description
      ensures description == value
    {
      description := value;
    }

    /** `handleImageChange`: entry `index` becomes `value`, the rest and the
        length stay. */
    method HandleImageChange(index: nat, value: string)
      requires Valid() && index < |previewImages|
      modifies this`previewImages
      ensures Valid()
      ensures previewImages == Replace(old(previewImages), index, value)
    {
      previewImages := Replace(previewImages, index, value);
    }

    /** `addImageInput`: one empty entry more while there are fewer than
        three. */
    method AddImageInput()
      requires Valid()
      modifies this`previewImages
      ensures Valid()
      ensures previewImages == AddEntry(old(previewImages))
    {
      previewImages := AddEntry(previewImages);
    }

    /** `removeImageInput`: the entry at `index` dropped, if there is one. */
    method RemoveImageInput(index: int)
      requires Valid()
      modifies this`previewImages
      ensures Valid()
      ensures previewImages == RemoveAt(old(previewImages), index)
    {
      previewImages := RemoveAt(previewImages, index);
    }

    /** The first part of `handleCreateCollection`, up to the remote call:
        loading on, error cleared, and the payload built from the fields. */
    method BeginCreate() returns (payload: CollectionPayload)
      requires Valid()
      modifies this`loading, this`error
      ensures Valid()
      ensures loading && error == None
      ensures payload == PayloadOf(name, description, previewImages)
      ensures |payload.preview_images| <= MaxImages
    {
      loading := true;
      error := None;
      payload := PayloadOf(name, description, previewImages);
    }

    /** The part after the remote call. On success the dialog closes, the
        caller's refresh is requested and the form is reset; on failure the
        error message is set and the fields are kept. Loading ends either
        way. */
    method FinishCreate(outcome: Outcome<()>) returns (notified: bool)
      requires Valid()
      modifies this
      ensures Valid() && !loading
      ensures notified <==> outcome.Succeeded?
      ensures outcome.Succeeded? ==>
        && !isOpen && name == "" && description == ""
        && previewImages == Initial() && error == old(error)
      ensures outcome.Failed? ==>
        && error == Some(CreateFailedMessage) && isOpen == old(isOpen)
        && name == old(name) && description == old(description)
        && previewImages == old(previewImages)
    {
      match outcome
      case Succeeded(_) =>
        loading := false;
        isOpen := false;
        notified := true;
        name := "";
        description := "";
        previewImages := Initial();
      case Failed =>
        error := Some(CreateFailedMessage);
        loading := false;
        notified := false;
    }

    /** `handleCreateCollection` as a whole, given the outcome of the
        create call. */
    method HandleCreateCollection(outcome: Outcome<()>) returns (payload: CollectionPayload, notified: bool)
      requires Valid()
      modifies this
      ensures Valid() && !loading
      ensures payload == PayloadOf(old(name), old(description), old(previewImages))
      ensures notified <==> outcome.Succeeded?
      ensures outcome.Succeeded? ==>
        && !isOpen && name == "" && description == "" && previewImages == Initial()
        && error == None
      ensures outcome.Failed? ==>
        && error == Some(CreateFailedMessage) && isOpen == old(isOpen)
        && name == old(name) && description == old(description)
        && previewImages == old(previewImages)
    {
      payload := BeginCreate();
      notified := FinishCreate(outcome);
    }
  }

  /** The images the edit form starts from: the collection's list when it has
      one, even an empty one, and a single empty entry only when the field is
      absent. */
  function InitialImages(c: Collection): (r: seq<string>)
    ensures c.preview_images.Some? ==> r == c.preview_images.value
    ensures c.preview_images.None? ==> r == Initial()
  {
    match c.preview_images
    case Some(images) => images
    case None => Initial()
  }

  class EditCollectionForm {
    var collection: Collection
    var isOpen: bool
    var name: string
    var description: string
    var previewImages: seq<string>
    var loading: bool
    var error: Option<string>

    /** A closed dialog holding the collection's fields. */
    constructor (c: Collection)
      ensures collection == c
      ensures !isOpen && name == c.name && description == c.description
      ensures previewImages == InitialImages(c)
      ensures !loading && error == None
    {
      collection := c;
      isOpen := false;
      name := c.name;
      description := c.description;
      previewImages := InitialImages(c);
      loading := false;
      error := None;
    }

    /** The effect that runs when the collection passed in changes: name,
        description and images are taken from it again, the rest stays. */
    method Resync(c: Collection)
      modifies this
      ensures collection == c
      ensures name == c.name && description == c.description
      ensures previewImages == InitialImages(c)
      ensures isOpen == old(isOpen) && loading == old(loading) && error == old(error)
    {
      collection := c;
      name := c.name;
      description := c.description;
      previewImages := InitialImages(c);
    }

    method SetOpen(open: bool)
      modifies this`isOpen
      ensures isOpen == open
    {
      isOpen := open;
    }

    method SetName(value: string)
      modifies this`name
      ensures name == value
    {
      name := value;
    }

    method SetDescription(value: string)
      modifies this`description
      ensures description == value
    {
      description := value;
    }

    method HandleImageChange(index: nat, value: string)
      requires index < |previewImages|
      modifies this`previewImages
      ensures previewImages == Replace(old(previewImages), index, value)
    {
      previewImages := Replace(previewImages, index, value);
    }

    /** One empty entry more while there are fewer than three; a list that
        already holds three or more is left as it is. */
    method AddImageInput()
      modifies this`previewImages
      ensures previewImages == AddEntry(old(previewImages))
      ensures |old(previewImages)| <= MaxImages ==> |previewImages| <= MaxImages
    {
      previewImages := AddEntry(previewImages);
    }

    method RemoveImageInput(index: int)
      modifies this`previewImages
      ensures previewImages == RemoveAt(old(previewImages), index)
    {
      previewImages := RemoveAt(previewImages, index);
    }

    /** The first part of `handleUpdateCollection`: loading on, error cleared,
        and the update addressed to the collection's id with the current
        fields and the non-blank images. */
    method BeginUpdate() returns (id: string, payload: CollectionPayload)
      modifies this`loading, this`error
      ensures loading && error == None
      ensures id == collection.id
      ensures payload == PayloadOf(name, description, previewImages)
    {
      loading := true;
      error := None;
      id := collection.id;
      payload := PayloadOf(name, description, previewImages);
    }

    /** The part after the update call. On success the dialog closes and the
        caller's refresh is requested, the fields are kept; on failure the
        error message is set. Loading ends either way. */
    method FinishUpdate(outcome: Outcome<()>) returns (notified: bool)
      modifies this`loading, this`isOpen, this`error
      ensures !loading
      ensures notified <==> outcome.Succeeded?
      ensures outcome.Succeeded? ==> !isOpen && error == old(error)
      ensures outcome.Failed? ==> error == Some(UpdateFailedMessage) && isOpen == old(isOpen)
    {
      match outcome
      case Succeeded(_) =>
        loading := false;
        isOpen := false;
        notified := true;
      case Failed =>
        error := Some(UpdateFailedMessage);
        loading := false;
        notified := false;
    }

    /** `handleUpdateCollection` as a whole, given the outcome of the update
        call. */
    method HandleUpdateCollection(outcome: Outcome<()>) returns (id: string, payload: CollectionPayload, notified: bool)
      modifies this`loading, this`isOpen, this`error
      ensures !loading
      ensures id == collection.id
      ensures payload == PayloadOf(name, description, previewImages)
      ensures notified <==> outcome.Succeeded?
      ensures outcome.Succeeded? ==> !isOpen && error == None
      ensures outcome.Failed? ==> error == Some(UpdateFailedMessage) && isOpen == old(isOpen)
    {
      id, payload := BeginUpdate();
      notified := FinishUpdate(outcome);
    }
  }

  /** A form driven through its controls from a fresh dialog never holds
      more than three image entries nor sends more than three. */
  lemma CreateFormBounded(edits: seq<ImageEdit>, name: string, description: string)
    requires OfferedTrace(Initial(), edits)
    ensures Replayable(Initial(), edits)
    ensures 1 <= |Replay(Initial(), edits)| <= MaxImages
    ensures |PayloadOf(name, description, Replay(Initial(), edits)).preview_images| <= MaxImages
  {
    OfferedTraceKeepsOneToThree(Initial(), edits);
  }
}
