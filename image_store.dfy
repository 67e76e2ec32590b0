/** The in-memory image store (`src/lib/stores/imageStore.ts`): the picture being
    edited, a short back-history of pictures left behind, and a few UI flags. Each action
    replaces the store's state with what its `update` arrow computes from the old one;
    the clock is an input. */
module ImageStore {
  import opened Types

  const MaxHistory: nat := 5

  /** `ImageState`. The chosen `File` is represented by its name. */
  datatype ImageState = ImageState(
    currentImage: Option<Image>,
    imageHistory: seq<Image>,
    isGenerating: bool,
    isUploading: bool,
    selectedImage: Option<string>,
    previewUrl: Option<string>,
    showVersionHistory: bool)

  const Initial: ImageState := ImageState(None, [], false, false, None, None, false)

  /** The history holds at most five pictures. */
  predicate Bounded(s: ImageState) {
    |s.imageHistory| <= MaxHistory
  }

  /** The history after `image` is left behind: a full history drops its oldest entry,
      then `image` goes to the end. */
  function Pushed(history: seq<Image>, image: Image): (r: seq<Image>)
    ensures |r| >= 1 && r[|r| - 1] == image
    ensures r[..|r| - 1] == if |history| >= MaxHistory then history[1..] else history
    ensures |history| <= MaxHistory ==> |r| <= MaxHistory
  {
    var kept := if |history| >= MaxHistory then history[1..] else history;
    var r := kept + [image];
    assert r[..|kept|] == kept;
    r
  }

  /** `setCurrentImage`: the new picture becomes current; only the history may change
      besides. */
  function SetCurrent(s: ImageState, image: Image): (r: ImageState)
    ensures r.currentImage == Some(image)
    ensures s.currentImage.None? || s.currentImage.value.id == image.id ==> r.imageHistory == s.imageHistory
    ensures r == s.(currentImage := r.currentImage, imageHistory := r.imageHistory)
  {
    if s.currentImage.Some? && s.currentImage.value.id != image.id then
      s.(currentImage := Some(image), imageHistory := Pushed(s.imageHistory, s.currentImage.value))
    else
      s.(currentImage := Some(image))
  }

  /** The picture left behind by `setCurrentImage` goes to the end of the history, unless
      there was none or it has the same id; a full history first drops its oldest, so the
      history stays within five pictures. */
  lemma SetCurrentHistory(s: ImageState, image: Image)
    ensures var h := SetCurrent(s, image).imageHistory;
      s.currentImage.Some? && s.currentImage.value.id != image.id ==>
        |h| >= 1 && h[|h| - 1] == s.currentImage.value &&
        h[..|h| - 1] == (if |s.imageHistory| >= MaxHistory then s.imageHistory[1..] else s.imageHistory)
    ensures Bounded(s) ==> Bounded(SetCurrent(s, image))
  {
  }

  /** `selectVersion`: only the current picture's URL and update time change. */
  function SelectVersion(s: ImageState, version: ImageVersion, now: Timestamp): (r: ImageState)
    ensures s.currentImage.None? ==> r == s
    ensures s.currentImage.Some? ==>
      r.currentImage == Some(s.currentImage.value.(imageUrl := version.imageUrl, updatedAt := now))
    ensures r.currentImage.Some? ==> r.currentImage.value.versions == s.currentImage.value.versions
    ensures r == s.(currentImage := r.currentImage)
  {
    match s.currentImage
    case None => s
    case Some(img) => s.(currentImage := Some(img.(imageUrl := version.imageUrl, updatedAt := now)))
  }

  /** `addVersion`: the version is appended and becomes the current picture. */
  function AddVersion(s: ImageState, version: ImageVersion, now: Timestamp): (r: ImageState)
    ensures s.currentImage.None? ==> r == s
    ensures s.currentImage.Some? ==>
      r.currentImage.Some? && (
      var before := s.currentImage.value;
      var after := r.currentImage.value;
      after.versions == before.versions + [version] && after.imageUrl == version.imageUrl &&
      after.updatedAt == now &&
      after == before.(imageUrl := after.imageUrl, updatedAt := now, versions := after.versions))
    ensures r == s.(currentImage := r.currentImage)
  {
    match s.currentImage
    case None => s
    case Some(img) =>
      s.(currentImage := Some(img.(imageUrl := version.imageUrl, updatedAt := now, versions := img.versions + [version])))
  }

  /** `goBack`: the last picture of the history becomes current again. */
  function GoBack(s: ImageState): (r: ImageState)
    ensures s.imageHistory == [] ==> r == s
    ensures s.imageHistory != [] ==>
      r.currentImage == Some(s.imageHistory[|s.imageHistory| - 1]) &&
      r.imageHistory == s.imageHistory[..|s.imageHistory| - 1]
    ensures Bounded(s) ==> Bounded(r)
    ensures r == s.(currentImage := r.currentImage, imageHistory := r.imageHistory)
  {
    if |s.imageHistory| == 0 then s
    else
      var history := s.imageHistory;
      s.(currentImage := Some(history[|history| - 1]), imageHistory := history[..|history| - 1])
  }

  function ToggleVersionHistory(s: ImageState): (r: ImageState)
    ensures r.showVersionHistory != s.showVersionHistory
    ensures r == s.(showVersionHistory := r.showVersionHistory)
  {
    s.(showVersionHistory := !s.showVersionHistory)
  }

  /** The derived `imageVersions`: the current picture's versions, or none. */
  function Versions(s: ImageState): (r: seq<ImageVersion>)
    ensures s.currentImage.Some? ==> r == s.currentImage.value.versions
    ensures s.currentImage.None? ==> r == []
  {
    if s.currentImage.Some? then s.currentImage.value.versions else []
  }

  /** The derived `canGoBack`. */
  function CanGoBack(s: ImageState): (b: bool)
    ensures b <==> s.imageHistory != []
  {
    |s.imageHistory| > 0
  }

  /** Going back right after switching to a different picture returns to the picture
      left behind; the history is as before, except that a full one has lost its oldest
      entry. */
  lemma SetThenGoBack(s: ImageState, image: Image)
    requires s.currentImage.Some? && s.currentImage.value.id != image.id
    ensures GoBack(SetCurrent(s, image)).currentImage == s.currentImage
    ensures |s.imageHistory| < MaxHistory ==> GoBack(SetCurrent(s, image)) == s
    ensures |s.imageHistory| >= MaxHistory ==> GoBack(SetCurrent(s, image)) == s.(imageHistory := s.imageHistory[1..])
  {
    SetCurrentHistory(s, image);
  }

  /** Switching to a picture with the current picture's id only replaces it. */
  lemma SetSameIdKeepsHistory(s: ImageState, image: Image)
    requires s.currentImage.Some? && s.currentImage.value.id == image.id
    ensures SetCurrent(s, image) == s.(currentImage := Some(image))
  {
  }

  lemma ToggleTwice(s: ImageState)
    ensures ToggleVersionHistory(ToggleVersionHistory(s)) == s
  {
  }

  /** Going back from an empty history is not possible and changes nothing. */
  lemma GoBackNeedsHistory(s: ImageState)
    ensures !CanGoBack(s) ==> GoBack(s) == s
    ensures CanGoBack(s) ==> |GoBack(s).imageHistory| == |s.imageHistory| - 1
  {
  }

  /** The writable `imageState` and the store's actions. */
  class ImageStoreCell {
    var state: ImageState

    ghost predicate Valid()
      reads this
    {
      Bounded(state)
    }

    constructor()
      ensures state == Initial && Valid()
    {
      state := Initial;
    }

    method SetCurrentImage(image: Image)
      requires Valid()
      modifies this
      ensures Valid()
      ensures state == SetCurrent(old(state), image)
    {
      SetCurrentHistory(state, image);
      var history := state.imageHistory;
      if state.currentImage.Some? && state.currentImage.value.id != image.id {
        if |history| >= MaxHistory {
          history := history[1..];
        }
        history := history + [state.currentImage.value];
      }
      state := state.(currentImage := Some(image), imageHistory := history);
    }

    method SelectImageVersion(version: ImageVersion, now: Timestamp)
      modifies this
      ensures state == SelectVersion(old(state), version, now)
    {
      state := SelectVersion(state, version, now);
    }

    method AddImageVersion(version: ImageVersion, now: Timestamp)
      modifies this
      ensures state == AddVersion(old(state), version, now)
    {
      state := AddVersion(state, version, now);
    }

    method SetGenerating(isGenerating: bool)
      modifies this
      ensures state == old(state).(isGenerating := isGenerating)
    {
      state := state.(isGenerating := isGenerating);
    }

    method SetUploading(isUploading: bool)
      modifies this
      ensures state == old(state).(isUploading := isUploading)
    {
      state := state.(isUploading := isUploading);
    }

    method SetSelectedImage(file: Option<string>, previewUrl: Option<string>)
      modifies this
      ensures state == old(state).(selectedImage := file, previewUrl := previewUrl)
    {
      state := state.(selectedImage := file, previewUrl := previewUrl);
    }

    method ToggleHistory()
      modifies this
      ensures state == ToggleVersionHistory(old(state))
    {
      state := ToggleVersionHistory(state);
    }

    /** `goBack`: pops the last picture off a copy of the history. */
    method Back()
      requires Valid()
      modifies this
      ensures Valid()
      ensures state == GoBack(old(state))
    {
      if |state.imageHistory| == 0 {
        return;
      }
      var history := state.imageHistory;
      var previous := history[|history| - 1];
      history := history[..|history| - 1];
      state := state.(currentImage := Some(previous), imageHistory := history);
    }

    method Reset()
      modifies this
      ensures state == Initial && Valid()
    {
      state := Initial;
    }
  }
}
