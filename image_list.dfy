/** The preview-image list edited by the create and edit collection forms: a
    short list of URL strings with three edits (replace an entry, append an
    empty entry while there are fewer than three, remove an entry) and the
    filter that keeps the non-blank entries when the form is submitted. */
module ImageList {
  import opened Text

  /** The most entries the form lets the user append up to. */
  const MaxImages: nat := 3

  /** A fresh form holds a single empty entry. */
  function Initial(): (r: seq<string>)
    ensures |r| == 1 && IsBlank(r[0])
  {
    [""]
  }

  /** `handleImageChange(index, value)`: a copy of the list with entry
      `index` set to `value`. */
  function Replace(images: seq<string>, index: nat, value: string): (r: seq<string>)
    requires index < |images|
    ensures |r| == |images| && r[index] == value
    ensures forall k :: 0 <= k < |r| && k != index ==> r[k] == images[k]
  {
    images[index := value]
  }

  /** `addImageInput()`: one empty entry appended when there are fewer than
      three entries, otherwise the list unchanged. */
  function AddEntry(images: seq<string>): (r: seq<string>)
    ensures |images| < MaxImages ==> r == images + [""]
    ensures |images| >= MaxImages ==> r == images
  {
    if |images| < MaxImages then images + [""] else images
  }

  /** `removeImageInput(index)`, as the source writes it: the entries whose
      position differs from `index`, in order. */
  function RemoveAt(images: seq<string>, index: int): (r: seq<string>)
    ensures |r| <= |images|
  {
    if images == [] then []
    else (if index == 0 then [] else [images[0]]) + RemoveAt(images[1..], index - 1)
  }

  /** Removing at a position in range drops exactly that entry and keeps the
      others in order; removing at a position out of range changes nothing. */
  lemma {:induction false} RemoveAtDropsOne(images: seq<string>, index: int)
    ensures 0 <= index < |images| ==> RemoveAt(images, index) == images[..index] + images[index + 1..]
    ensures !(0 <= index < |images|) ==> RemoveAt(images, index) == images
  {
    if images != [] {
      RemoveAtDropsOne(images[1..], index - 1);
      var tail := images[1..];
      if index == 0 {
        assert images[index + 1..] == tail;
      } else if 0 < index < |images| {
        assert images[..index] == [images[0]] + tail[..index - 1];
        assert images[index + 1..] == tail[index..];
      } else {
        assert images == [images[0]] + tail;
      }
    }
  }

  /** The count of entries after a removal in range is one less. */
  lemma RemoveAtLength(images: seq<string>, index: int)
    ensures 0 <= index < |images| ==> |RemoveAt(images, index)| == |images| - 1
    ensures !(0 <= index < |images|) ==> |RemoveAt(images, index)| == |images|
  {
    RemoveAtDropsOne(images, index);
  }

  /** The submitted `preview_images`: the entries whose trimmed value is not
      empty, in their original order. */
  function Submitted(images: seq<string>): (r: seq<string>)
    ensures |r| <= |images|
    ensures forall k :: 0 <= k < |r| ==> !IsBlank(r[k])
  {
    if images == [] then []
    else (if IsBlank(images[0]) then [] else [images[0]]) + Submitted(images[1..])
  }

  /** One step of the filter: the first entry is kept when it is not blank. */
  lemma SubmittedCons(x: string, t: seq<string>)
    ensures Submitted([x] + t) == (if IsBlank(x) then [] else [x]) + Submitted(t)
  {
    assert ([x] + t)[0] == x && ([x] + t)[1..] == t;
  }

  /** The filter distributes over concatenation; together with its effect on
      one entry this says it keeps order. */
  lemma {:induction false} SubmittedAppend(a: seq<string>, b: seq<string>)
    ensures Submitted(a + b) == Submitted(a) + Submitted(b)
  {
    if a == [] {
      assert a + b == b;
    } else {
      var head := if IsBlank(a[0]) then [] else [a[0]];
      SubmittedAppend(a[1..], b);
      assert a + b == [a[0]] + (a[1..] + b);
      assert a == [a[0]] + a[1..];
      SubmittedCons(a[0], a[1..] + b);
      SubmittedCons(a[0], a[1..]);
      assert head + (Submitted(a[1..]) + Submitted(b)) == (head + Submitted(a[1..])) + Submitted(b);
    }
  }

  /** Each non-blank entry is submitted as often as it occurs; no blank entry
      is submitted. */
  lemma {:induction false} SubmittedCounts(images: seq<string>, x: string)
    ensures multiset(Submitted(images))[x] == if IsBlank(x) then 0 else multiset(images)[x]
  {
    if images != [] {
      var head := if IsBlank(images[0]) then [] else [images[0]];
      SubmittedCounts(images[1..], x);
      assert images == [images[0]] + images[1..];
      assert multiset(images) == multiset([images[0]]) + multiset(images[1..]);
      assert Submitted(images) == head + Submitted(images[1..]);
      assert multiset(Submitted(images)) == multiset(head) + multiset(Submitted(images[1..]));
    }
  }

  /** A list with no blank entry is submitted as it is, and submitting is
      idempotent. */
  lemma {:induction false} SubmittedKeepsNonBlank(images: seq<string>)
    ensures (forall k :: 0 <= k < |images| ==> !IsBlank(images[k])) ==> Submitted(images) == images
    ensures Submitted(Submitted(images)) == Submitted(images)
  {
    if images != [] {
      var kept := Submitted(images[1..]);
      SubmittedKeepsNonBlank(images[1..]);
      if IsBlank(images[0]) {
        assert Submitted(images) == kept;
      } else {
        var r := [images[0]] + kept;
        assert Submitted(images) == r;
        assert r[0] == images[0] && r[1..] == kept;
        assert Submitted(r) == [images[0]] + Submitted(kept);
        if forall k :: 0 <= k < |images| ==> !IsBlank(images[k]) {
          assert forall k :: 0 <= k < |images[1..]| ==> images[1..][k] == images[k + 1];
          assert images == [images[0]] + images[1..];
        }
      }
    }
  }

  /** Nothing is submitted exactly when every entry is blank. */
  lemma {:induction false} SubmittedEmpty(images: seq<string>)
    ensures Submitted(images) == [] <==> forall k :: 0 <= k < |images| ==> IsBlank(images[k])
  {
    if images != [] {
      SubmittedEmpty(images[1..]);
      assert forall k :: 1 <= k < |images| ==> images[k] == images[1..][k - 1];
    }
  }

  /** One user edit of the list. */
  datatype ImageEdit = Change(at: nat, value: string) | Add | Remove(index: int)

  /** An edit can be applied when a change names an existing entry. */
  predicate Applicable(images: seq<string>, e: ImageEdit) {
    e.Change? ==> e.at < |images|
  }

  function Step(images: seq<string>, e: ImageEdit): seq<string>
    requires Applicable(images, e)
  {
    match e
    case Change(i, v) => Replace(images, i, v)
    case Add => AddEntry(images)
    case Remove(i) => RemoveAt(images, i)
  }

  /** Every edit of the trace can be applied in turn. */
  predicate Replayable(images: seq<string>, edits: seq<ImageEdit>)
    decreases |edits|
  {
    edits == [] || (Applicable(images, edits[0]) && Replayable(Step(images, edits[0]), edits[1..]))
  }

  function Replay(images: seq<string>, edits: seq<ImageEdit>): seq<string>
    requires Replayable(images, edits)
    decreases |edits|
  {
    if edits == [] then images else Replay(Step(images, edits[0]), edits[1..])
  }

  /** No edit takes a list of at most three entries above three. */
  lemma StepBounded(images: seq<string>, e: ImageEdit)
    requires |images| <= MaxImages && Applicable(images, e)
    ensures |Step(images, e)| <= MaxImages
  {
  }

  /** No trace of edits takes a list of at most three entries above three. */
  lemma {:induction false} ReplayBounded(images: seq<string>, edits: seq<ImageEdit>)
    requires |images| <= MaxImages && Replayable(images, edits)
    ensures |Replay(images, edits)| <= MaxImages
    decreases |edits|
  {
    if edits != [] {
      StepBounded(images, edits[0]);
      ReplayBounded(Step(images, edits[0]), edits[1..]);
    }
  }

  /** Starting from the fresh form, no trace of edits gives more than three
      entries. */
  lemma FromInitialBounded(edits: seq<ImageEdit>)
    requires Replayable(Initial(), edits)
    ensures |Replay(Initial(), edits)| <= MaxImages
  {
    ReplayBounded(Initial(), edits);
  }

  /** The edits the form's controls can issue: one input per entry, the add
      button only while there are fewer than three entries, and a remove
      button per entry only while there is more than one. */
  predicate Offered(images: seq<string>, e: ImageEdit) {
    match e
    case Change(i, _) => i < |images|
    case Add => |images| < MaxImages
    case Remove(i) => |images| > 1 && 0 <= i < |images|
  }

  predicate OfferedTrace(images: seq<string>, edits: seq<ImageEdit>)
    decreases |edits|
  {
    edits == [] || (Offered(images, edits[0]) && OfferedTrace(Step(images, edits[0]), edits[1..]))
  }

  /** Through the form's controls a list of one to three entries keeps one to
      three entries: the add edit is then always effective and a removal
      never empties the list. */
  lemma {:induction false} OfferedTraceKeepsOneToThree(images: seq<string>, edits: seq<ImageEdit>)
    requires 1 <= |images| <= MaxImages && OfferedTrace(images, edits)
    ensures Replayable(images, edits)
    ensures 1 <= |Replay(images, edits)| <= MaxImages
    decreases |edits|
  {
    if edits != [] {
      var e := edits[0];
      if e.Remove? {
        RemoveAtLength(images, e.index);
      }
      OfferedTraceKeepsOneToThree(Step(images, e), edits[1..]);
    }
  }
}
