/** The localStorage image service (`src/lib/services/storage/images.ts`). Each image
    record is stored as JSON text under `vibe_photoshop_image_<id>`. A new record holds one
    version. A new version is appended to the record and becomes its current `imageUrl`.
    A user's records are listed newest first, and a record is removed by its key. The clock
    (`now`) and the quota decision for each write (`accepted`) are inputs. */
module ImageStorage {
  import opened Types
  import opened Text
  import opened JsonCodec
  import opened Collections
  import opened WebStorage

  const StoragePrefix: string := "vibe_photoshop_"
  const ImagePrefix: string := StoragePrefix + "image_"
  const JpegDataUrlPrefix: string := "data:image/jpeg;base64,"

  /** `${STORAGE_PREFIX}image_${id}`. */
  function ImageKey(id: string): (key: string)
    ensures StartsWith(key, ImagePrefix) && key[|ImagePrefix|..] == id
  {
    assert (ImagePrefix + id)[..|ImagePrefix|] == ImagePrefix;
    ImagePrefix + id
  }

  lemma ImageKeyInjective(a: string, b: string)
    requires ImageKey(a) == ImageKey(b)
    ensures a == b
  {
    assert a == ImageKey(a)[|ImagePrefix|..];
  }

  lemma DataPrefixOfJpegUrl(s: string)
    ensures StartsWith(JpegDataUrlPrefix + s, "data:")
  {
    assert (JpegDataUrlPrefix + s)[..5] == "data:";
  }

  /** A base64 payload as a data URL: text already starting with `data:` is kept as it is,
      anything else is taken for JPEG data. */
  function ToDataUrl(s: string): (url: string)
    ensures StartsWith(url, "data:")
    ensures url == s <==> StartsWith(s, "data:")
    ensures url != s ==> url == JpegDataUrlPrefix + s
  {
    DataPrefixOfJpegUrl(s);
    if StartsWith(s, "data:") then s else JpegDataUrlPrefix + s
  }

  /** A data URL is left alone, so normalising twice is normalising once. */
  lemma ToDataUrlIdempotent(s: string)
    ensures ToDataUrl(ToDataUrl(s)) == ToDataUrl(s)
  {
  }

  /** The record's current picture is its last version's. */
  predicate WellFormed(img: Image) {
    |img.versions| >= 1 && img.versions[|img.versions| - 1].imageUrl == img.imageUrl
  }

  /** The record `saveGeneratedImage` builds at time `now`. */
  function GeneratedImage(userId: string, base64Image: string, prompt: string, now: Timestamp): (img: Image)
    ensures img.id == "img-" + RenderInt(now) && img.userId == userId && img.prompt == prompt
    ensures img.status == Completed && img.createdAt == now && img.updatedAt == now
    ensures img.imageUrl == ToDataUrl(base64Image) && img.thumbnail == Some(img.imageUrl)
    ensures img.metadata == Metadata(1024, 1024, "jpeg", Utf16Length(base64Image))
    ensures |img.versions| == 1 && WellFormed(img)
    ensures img.versions[0].imageId == img.id && img.versions[0].prompt == prompt
    ensures img.versions[0].createdAt == now && img.versions[0].parentVersionId == None
  {
    var id := "img-" + RenderInt(now);
    var url := ToDataUrl(base64Image);
    Image(id, userId, prompt, url, Some(url), Completed, now, now,
      Metadata(1024, 1024, "jpeg", Utf16Length(base64Image)),
      [ImageVersion("v-" + RenderInt(now), id, prompt, url, now, None)])
  }

  /** The version `addImageVersion` creates at time `now`. */
  function NewVersion(imageId: string, prompt: string, url: string, now: Timestamp): ImageVersion {
    ImageVersion("v-" + RenderInt(now), imageId, prompt, url, now, None)
  }

  /** `{...image, imageUrl: v.imageUrl, updatedAt: now, versions: [...image.versions, v]}`. */
  function AppendVersion(img: Image, v: ImageVersion, now: Timestamp): (r: Image)
    ensures r.versions == img.versions + [v] && r.imageUrl == v.imageUrl && r.updatedAt == now
    ensures r.id == img.id && r.userId == img.userId && r.prompt == img.prompt
    ensures r.thumbnail == img.thumbnail && r.status == img.status
    ensures r.createdAt == img.createdAt && r.metadata == img.metadata
    ensures WellFormed(r)
  {
    img.(imageUrl := v.imageUrl, updatedAt := now, versions := img.versions + [v])
  }

  /** Storage after `setItem(ImageKey(img.id), JSON.stringify(img))` succeeds. */
  function WithImage(items: map<string, string>, img: Image): map<string, string> {
    items[ImageKey(img.id) := StringifyImage(img)]
  }

  /** `getImageFromStorage` in the browser: `None` for a missing key or text that is not
      an image record. */
  function LoadImage(items: map<string, string>, id: string): (r: Option<Image>)
    ensures r.Some? ==> ImageKey(id) in items && ParseImageJson(items[ImageKey(id)]) == r
  {
    if ImageKey(id) in items then ParseImageJson(items[ImageKey(id)]) else None
  }

  /** A record reads back as it was written. */
  lemma LoadAfterSave(items: map<string, string>, img: Image)
    ensures LoadImage(WithImage(items, img), img.id) == Some(img)
  {
    ImageJsonRoundTrip(img);
  }

  /** Writing one record leaves every other id's record as it was. */
  lemma LoadAfterSaveOther(items: map<string, string>, img: Image, id: string)
    requires id != img.id
    ensures LoadImage(WithImage(items, img), id) == LoadImage(items, id)
  {
    if ImageKey(id) == ImageKey(img.id) {
      ImageKeyInjective(id, img.id);
    }
  }

  function GetImage(ls: LocalStorage, id: string): Option<Image>
    reads ls
  {
    if ls.inBrowser then LoadImage(ls.items, id) else None
  }

  method SaveImageToStorage(ls: LocalStorage, img: Image, accepted: bool)
    modifies ls
    ensures ls.items == if ls.inBrowser && accepted then WithImage(old(ls.items), img) else old(ls.items)
  {
    if ls.inBrowser {
      ls.SetItem(ImageKey(img.id), StringifyImage(img), accepted);
    }
  }

  /** A write rejected for quota is swallowed: the image is returned all the same. */
  method SaveGeneratedImage(ls: LocalStorage, userId: string, base64Image: string, prompt: string,
                            now: Timestamp, accepted: bool)
    returns (r: Result<Image>)
    modifies ls
    ensures !ls.inBrowser ==> r == Failure("Cannot save image in server context") && ls.items == old(ls.items)
    ensures ls.inBrowser ==> r == Success(GeneratedImage(userId, base64Image, prompt, now))
    ensures ls.inBrowser ==> ls.items == if accepted then WithImage(old(ls.items), r.value) else old(ls.items)
  {
    if !ls.inBrowser {
      return Failure("Cannot save image in server context");
    }
    var img := GeneratedImage(userId, base64Image, prompt, now);
    SaveImageToStorage(ls, img, accepted);
    return Success(img);
  }

  method AddImageVersion(ls: LocalStorage, imageId: string, base64Image: string, prompt: string,
                         now: Timestamp, accepted: bool)
    returns (r: Option<Image>)
    modifies ls
    ensures old(GetImage(ls, imageId)).None? ==> r == None && ls.items == old(ls.items)
    ensures old(GetImage(ls, imageId)).Some? ==>
      var updated := AppendVersion(old(GetImage(ls, imageId)).value,
                                   NewVersion(imageId, prompt, ToDataUrl(base64Image), now), now);
      r == Some(updated) && ls.items == if accepted then WithImage(old(ls.items), updated) else old(ls.items)
    ensures r.Some? && accepted ==> GetImage(ls, r.value.id) == r
  {
    if !ls.inBrowser {
      return None;
    }
    var image := LoadImage(ls.items, imageId);
    if image.None? {
      return None;
    }
    var v := NewVersion(imageId, prompt, ToDataUrl(base64Image), now);
    var updated := AppendVersion(image.value, v, now);
    SaveImageToStorage(ls, updated, accepted);
    if accepted {
      LoadAfterSave(old(ls.items), updated);
    }
    return Some(updated);
  }

  /** What the listing loop makes of one storage entry: the parsed record when the key
      is an image key and the record belongs to `userId`. */
  function UserImageAt(userId: string, key: string, value: string): (r: Option<Image>)
    ensures r.Some? ==> r.value.userId == userId && StartsWith(key, ImagePrefix)
    ensures r.Some? ==> ParseImageJson(value) == r
  {
    if StartsWith(key, ImagePrefix) then
      match ParseImageJson(value)
      case Some(img) => if img.userId == userId then Some(img) else None
      case None => None
    else None
  }

  /** The keys whose records `getUserImages(userId)` returns. */
  ghost function UserImageKeys(items: map<string, string>, userId: string): set<string> {
    set k | k in items && UserImageAt(userId, k, items[k]).Some?
  }

  /** The keys whose entries `getUserImages(userId)` reads as `img`. */
  ghost function KeysHolding(items: map<string, string>, userId: string, img: Image): set<string> {
    set k | k in items && UserImageAt(userId, k, items[k]) == Some(img)
  }

  /** Lists `userId`'s records, newest `createdAt` first. Every entry comes from an image
      key, every record of the user is listed, and each key contributes its own record
      once: a record occurs as often as there are keys holding it. */
  method GetUserImages(ls: LocalStorage, userId: string) returns (r: seq<Image>)
    ensures !ls.inBrowser ==> r == []
    ensures SortedDesc(r, CreatedAt)
    ensures forall img :: img in r ==>
      img.userId == userId && exists k :: k in ls.items && UserImageAt(userId, k, ls.items[k]) == Some(img)
    ensures ls.inBrowser ==> forall k :: k in ls.items && UserImageAt(userId, k, ls.items[k]).Some? ==>
      UserImageAt(userId, k, ls.items[k]).value in r
    ensures ls.inBrowser ==> |r| == |UserImageKeys(ls.items, userId)|
    ensures ls.inBrowser ==> forall img :: multiset(r)[img] == |KeysHolding(ls.items, userId, img)|
  {
    if !ls.inBrowser {
      return [];
    }
    var select := (k: string, v: string) => UserImageAt(userId, k, v);
    r := CollectSorted(ls.items, select, CreatedAt);
    assert AcceptedKeys(ls.items, select) == UserImageKeys(ls.items, userId);
    forall img
      ensures multiset(r)[img] == |KeysHolding(ls.items, userId, img)|
    {
      assert KeysTo(ls.items, select, ls.items.Keys, img) == KeysHolding(ls.items, userId, img);
    }
  }

  /** `deleteImage`: in the browser the key is removed, whether or not it held a record,
      and the result is `true`. */
  method DeleteImage(ls: LocalStorage, imageId: string) returns (ok: bool)
    modifies ls
    ensures ok == ls.inBrowser
    ensures ls.items == if ls.inBrowser then old(ls.items) - {ImageKey(imageId)} else old(ls.items)
    ensures GetImage(ls, imageId) == None
  {
    if !ls.inBrowser {
      return false;
    }
    ls.RemoveItem(ImageKey(imageId));
    return true;
  }

  /** Every image record sits under the key of its own id, as the service writes it. */
  ghost predicate WellKeyed(items: map<string, string>) {
    forall k :: k in items && StartsWith(k, ImagePrefix) && ParseImageJson(items[k]).Some? ==>
      k == ImageKey(ParseImageJson(items[k]).value.id)
  }

  /** The service's writes keep every record under its own id's key. */
  lemma WithImageKeepsWellKeyed(items: map<string, string>, img: Image)
    requires WellKeyed(items)
    ensures WellKeyed(WithImage(items, img))
  {
    ImageJsonRoundTrip(img);
  }
}
