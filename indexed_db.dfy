/** The IndexedDB image service (`src/lib/services/storage/indexedDB.ts`): one object
    store whose records are keyed by their `id` and hold their dates as text. Records are
    written whole (`put`), read back with their dates parsed, listed per user newest
    `updatedAt` first, given new versions after compression, and cut down to their newest
    versions. Opening the database fails outside the browser. The JPEG compressor and the
    clock are inputs. */
module ImageDatabase {
  import opened Types
  import opened Text
  import opened Collections
  import opened ImageStorage

  const ServerContextError: string := "Cannot initialize IndexedDB in server context"
  const DefaultMaxVersions: int := 5
  const MaxDimension: real := 1024.0

  // ---------------------------------------------------------------------------
  // Stored layout: an `Image` with its `Date`s as text

  datatype DbVersion = DbVersion(
    id: string,
    imageId: string,
    prompt: string,
    imageUrl: string,
    createdAt: string,
    parentVersionId: Option<string>)

  datatype DbImage = DbImage(
    id: string,
    userId: string,
    prompt: string,
    imageUrl: string,
    thumbnail: Option<string>,
    status: Status,
    createdAt: string,
    updatedAt: string,
    metadata: Metadata,
    versions: seq<DbVersion>)

  /** `{...v, createdAt: v.createdAt.toISOString()}`. */
  function ToDbVersion(v: ImageVersion): DbVersion {
    DbVersion(v.id, v.imageId, v.prompt, v.imageUrl, RenderDate(v.createdAt), v.parentVersionId)
  }

  function ToDbVersions(vs: seq<ImageVersion>): (r: seq<DbVersion>)
    ensures |r| == |vs|
    ensures forall i :: 0 <= i < |vs| ==> r[i] == ToDbVersion(vs[i])
  {
    seq(|vs|, i requires 0 <= i < |vs| => ToDbVersion(vs[i]))
  }

  /** The record `saveImage` puts for `img`. */
  function ToDb(img: Image): DbImage {
    DbImage(img.id, img.userId, img.prompt, img.imageUrl, img.thumbnail, img.status,
      RenderDate(img.createdAt), RenderDate(img.updatedAt), img.metadata, ToDbVersions(img.versions))
  }

  /** `{...v, createdAt: new Date(v.createdAt)}`; `None` when the text is not a date. */
  function FromDbVersion(d: DbVersion): (r: Option<ImageVersion>)
    ensures r.Some? ==> r.value.id == d.id && r.value.imageUrl == d.imageUrl
  {
    match ParseDate(d.createdAt)
    case Some(t) => Some(ImageVersion(d.id, d.imageId, d.prompt, d.imageUrl, t, d.parentVersionId))
    case None => None
  }

  function FromDbVersions(ds: seq<DbVersion>): (r: Option<seq<ImageVersion>>)
    ensures r.Some? ==> |r.value| == |ds|
  {
    if ds == [] then Some([])
    else
      match (FromDbVersion(ds[0]), FromDbVersions(ds[1..]))
      case (Some(v), Some(rest)) => Some([v] + rest)
      case _ => None
  }

  /** The `Image` `getImage` rebuilds from a stored record. */
  function FromDb(d: DbImage): (r: Option<Image>)
    ensures r.Some? ==> r.value.id == d.id && r.value.userId == d.userId
    ensures r.Some? ==> |r.value.versions| == |d.versions|
  {
    match (ParseDate(d.createdAt), ParseDate(d.updatedAt), FromDbVersions(d.versions))
    case (Some(c), Some(u), Some(vs)) =>
      Some(Image(d.id, d.userId, d.prompt, d.imageUrl, d.thumbnail, d.status, c, u, d.metadata, vs))
    case _ => None
  }

  lemma {:induction false} VersionsRoundTrip(vs: seq<ImageVersion>)
    ensures FromDbVersions(ToDbVersions(vs)) == Some(vs)
  {
    if vs != [] {
      DateRoundTrip(vs[0].createdAt);
      assert ToDbVersions(vs)[1..] == ToDbVersions(vs[1..]);
      VersionsRoundTrip(vs[1..]);
      assert [vs[0]] + vs[1..] == vs;
    }
  }

  /** Dates survive the trip to text and back: a record reads back as it was saved. */
  lemma DbRoundTrip(img: Image)
    ensures FromDb(ToDb(img)) == Some(img)
  {
    DateRoundTrip(img.createdAt);
    DateRoundTrip(img.updatedAt);
    VersionsRoundTrip(img.versions);
  }

  // ---------------------------------------------------------------------------
  // Version cleanup policy

  /** How many elements `slice(0, n)` keeps of a sequence of length `len`: a negative `n`
      counts back from the end. */
  function SliceEnd(len: nat, n: int): (k: nat)
    ensures k <= len
    ensures 0 <= n ==> k == if n < len then n else len
  {
    if n >= 0 then (if n < len then n else len)
    else if len + n > 0 then len + n else 0
  }

  /** `versions.sort(newest createdAt first).slice(0, maxVersions)`. */
  function KeepNewest(vs: seq<ImageVersion>, maxVersions: int): seq<ImageVersion> {
    var sorted := SortDesc(vs, VersionCreatedAt);
    sorted[..SliceEnd(|sorted|, maxVersions)]
  }

  /** With a non-negative limit below the count, exactly `maxVersions` versions remain,
      newest first, each taken from the old list, and none left out is newer than one
      kept. */
  lemma KeepNewestKeepsNewest(vs: seq<ImageVersion>, maxVersions: int)
    requires 0 <= maxVersions < |vs|
    ensures |KeepNewest(vs, maxVersions)| == maxVersions
    ensures SortedDesc(KeepNewest(vs, maxVersions), VersionCreatedAt)
    ensures forall v :: v in KeepNewest(vs, maxVersions) ==> v in vs
    ensures forall x, y :: x in KeepNewest(vs, maxVersions) && y in vs && y !in KeepNewest(vs, maxVersions) ==>
      x.createdAt >= y.createdAt
  {
    var sorted := SortDesc(vs, VersionCreatedAt);
    var kept := KeepNewest(vs, maxVersions);
    SortedPrefix(vs, sorted, VersionCreatedAt, maxVersions);
    assert kept == sorted[..maxVersions];
    forall x, y | x in kept && y in vs && y !in kept
      ensures x.createdAt >= y.createdAt
    {
      assert VersionCreatedAt(x) >= VersionCreatedAt(y);
    }
  }

  /** What the cursor pass leaves under one key: a record with more than `maxVersions`
      versions is saved again with its newest ones; a record whose dates do not parse
      cannot be saved again and stays as it was. */
  function CleanEntry(d: DbImage, maxVersions: int): DbImage {
    if |d.versions| > maxVersions then
      match FromDb(d)
      case Some(img) => ToDb(img.(versions := KeepNewest(img.versions, maxVersions)))
      case None => d
    else d
  }

  /** A cleaned record reads back as the same image with only its versions cut; a record
      within the limit is left as it was. */
  lemma CleanEntryReadsBack(d: DbImage, maxVersions: int, img: Image)
    requires FromDb(d) == Some(img)
    ensures |img.versions| <= maxVersions ==> CleanEntry(d, maxVersions) == d
    ensures |img.versions| > maxVersions ==>
      FromDb(CleanEntry(d, maxVersions)) == Some(img.(versions := KeepNewest(img.versions, maxVersions)))
  {
    if |img.versions| > maxVersions {
      DbRoundTrip(img.(versions := KeepNewest(img.versions, maxVersions)));
    }
  }

  // ---------------------------------------------------------------------------
  // compressImage's target size

  /** Scaling a side no longer than the other by their ratio keeps it within the
      target and keeps the aspect ratio. */
  lemma RatioScales(short: real, long: real)
    requires long > 0.0 && short <= long
    ensures (short / long) * MaxDimension <= MaxDimension
    ensures 0.0 <= short ==> 0.0 <= (short / long) * MaxDimension
    ensures (short / long) * MaxDimension * long == MaxDimension * short
  {
    assert (short / long) * long == short;
  }

  /** The canvas size `compressImage` draws at: within 1024 on both sides nothing
      changes; otherwise the longer side (the height for a square) becomes 1024 and the
      other keeps the aspect ratio. */
  function TargetDimensions(width: real, height: real): (r: (real, real))
    ensures width <= MaxDimension && height <= MaxDimension ==> r == (width, height)
    ensures r.0 * height == r.1 * width
    ensures 0.0 <= width && 0.0 <= height ==> 0.0 <= r.0 <= MaxDimension && 0.0 <= r.1 <= MaxDimension
    ensures (width > MaxDimension || height > MaxDimension) ==>
      (if width > height then r.0 == MaxDimension else r.1 == MaxDimension)
  {
    if width > MaxDimension || height > MaxDimension then
      if width > height then
        RatioScales(height, width);
        (MaxDimension, (height / width) * MaxDimension)
      else
        RatioScales(width, height);
        ((width / height) * MaxDimension, MaxDimension)
    else
      (width, height)
  }

  // ---------------------------------------------------------------------------
  // The object store

  /** The `userId` index: a record of `userId` read back as an `Image`. */
  function UserSelect(userId: string): (string, DbImage) -> Option<Image> {
    (id: string, d: DbImage) => if d.userId == userId then FromDb(d) else None
  }

  /** What the index selects, collected from a store keyed by id, is exactly the readable
      records of `userId`, each under its own id. */
  lemma UserListing(records: map<string, DbImage>, userId: string, images: seq<Image>)
    requires KeyedById(records)
    requires forall x :: x in images ==> exists k :: k in records && UserSelect(userId)(k, records[k]) == Some(x)
    ensures forall img :: img in images ==>
      img.userId == userId && img.id in records && FromDb(records[img.id]) == Some(img)
    ensures AcceptedKeys(records, UserSelect(userId)) == set id | id in records && records[id].userId == userId
  {
    forall img | img in images
      ensures img.userId == userId && img.id in records && FromDb(records[img.id]) == Some(img)
    {
      var id :| id in records && UserSelect(userId)(id, records[id]) == Some(img);
    }
  }

  /** The store's key path is `id`, and every record was built from an `Image`. */
  ghost predicate KeyedById(records: map<string, DbImage>) {
    forall id :: id in records ==> records[id].id == id && FromDb(records[id]).Some?
  }

  /** The cleanup pass after it has visited every key but those in `remaining`. */
  ghost predicate CleanedExcept(before: map<string, DbImage>, records: map<string, DbImage>,
                                remaining: set<string>, maxVersions: int) {
    remaining <= before.Keys == records.Keys &&
    forall id :: id in records ==>
      records[id] == if id in remaining then before[id] else CleanEntry(before[id], maxVersions)
  }

  /** Visiting one more key keeps the pass's invariant. */
  lemma CleanStep(before: map<string, DbImage>, records: map<string, DbImage>,
                  remaining: set<string>, id: string, maxVersions: int)
    requires CleanedExcept(before, records, remaining, maxVersions)
    requires id in remaining
    ensures CleanedExcept(before, records[id := CleanEntry(records[id], maxVersions)], remaining - {id}, maxVersions)
  {
    var r := records[id := CleanEntry(records[id], maxVersions)];
    forall k | k in r
      ensures r[k] == if k in remaining - {id} then before[k] else CleanEntry(before[k], maxVersions)
    {
    }
  }

  /** Cleaning one record keeps every record under its own id and readable. */
  lemma CleanStepKeyed(records: map<string, DbImage>, id: string, maxVersions: int)
    requires KeyedById(records) && id in records
    ensures KeyedById(records[id := CleanEntry(records[id], maxVersions)])
  {
    CleanEntryKeyed(records[id], maxVersions);
  }

  /** A cleaned record keeps its id and still reads back. */
  lemma CleanEntryKeyed(d: DbImage, maxVersions: int)
    requires FromDb(d).Some?
    ensures CleanEntry(d, maxVersions).id == d.id && FromDb(CleanEntry(d, maxVersions)).Some?
  {
    CleanEntryReadsBack(d, maxVersions, FromDb(d).value);
  }

  /** The cursor pass of `cleanupOldVersions` as the source writes it, over the keys in
      the cursor's order `order` (IndexedDB's ascending key order). A record within the
      limit is passed over and `continue()` runs at once. At the first record over the
      limit the handler awaits `saveImage`, which commits the cleaned record in a
      transaction of its own; by then the cursor's transaction has committed, the
      `continue()` after the await throws, and no further record is visited. */
  function CursorPass(records: map<string, DbImage>, order: seq<string>, maxVersions: int): (r: map<string, DbImage>)
    ensures r.Keys == records.Keys
    ensures forall id :: id in r ==> r[id] == records[id] || r[id] == CleanEntry(records[id], maxVersions)
    ensures forall a, b :: a in r && b in r && r[a] != records[a] && r[b] != records[b] ==> a == b
    decreases |order|
  {
    if order == [] then records
    else if order[0] in records && |records[order[0]].versions| > maxVersions then
      records[order[0] := CleanEntry(records[order[0]], maxVersions)]
    else CursorPass(records, order[1..], maxVersions)
  }

  /** Two records over the limit, the cursor reaching `a` before `b`: the pass as
      written trims `a` and never reaches `b`, whose full-pass result would differ. */
  lemma CursorPassStopsEarly(records: map<string, DbImage>, a: string, b: string, maxVersions: int)
    requires a != b && a in records && b in records && 0 <= maxVersions
    requires |records[a].versions| > maxVersions && |records[b].versions| > maxVersions
    requires FromDb(records[b]).Some?
    ensures CursorPass(records, [a, b], maxVersions)[a] == CleanEntry(records[a], maxVersions)
    ensures CursorPass(records, [a, b], maxVersions)[b] == records[b]
    ensures CleanEntry(records[b], maxVersions) != records[b]
  {
    var img := FromDb(records[b]).value;
    CleanEntryReadsBack(records[b], maxVersions, img);
    KeepNewestKeepsNewest(img.versions, maxVersions);
  }

  /** With at most one record over the limit, and every key in the cursor's order, the
      pass as written does what the full pass does. */
  lemma {:induction false} CursorPassOneOver(records: map<string, DbImage>, order: seq<string>, maxVersions: int)
    requires forall id :: id in records && |records[id].versions| > maxVersions ==> id in order
    requires forall a, b ::
      (a in records && b in records && |records[a].versions| > maxVersions && |records[b].versions| > maxVersions) ==> a == b
    ensures forall id :: id in records ==> CursorPass(records, order, maxVersions)[id] == CleanEntry(records[id], maxVersions)
    decreases |order|
  {
    if order == [] {
    } else if order[0] in records && |records[order[0]].versions| > maxVersions {
    } else {
      forall id | id in records && |records[id].versions| > maxVersions
        ensures id in order[1..]
      {
        assert id in order && id != order[0];
      }
      CursorPassOneOver(records, order[1..], maxVersions);
    }
  }

  class ImageDatabase {
    const inBrowser: bool
    var records: map<string, DbImage>

    /** The store's key path is `id`, and the service writes only records it built from
        an `Image`. */
    ghost predicate Valid()
      reads this
    {
      KeyedById(records)
    }

    constructor(inBrowser: bool)
      ensures this.inBrowser == inBrowser && records == map[] && Valid()
    {
      this.inBrowser := inBrowser;
      records := map[];
    }

    /** The image `getImage(id)` resolves to once the database is open. */
    function Lookup(id: string): Option<Image>
      reads this
    {
      if id in records then FromDb(records[id]) else None
    }

    /** `saveImage`: `put` replaces any record with the same id. */
    method SaveImage(img: Image) returns (r: Result<()>)
      requires Valid()
      modifies this
      ensures Valid()
      ensures !inBrowser ==> r == Failure(ServerContextError) && records == old(records)
      ensures inBrowser ==> r == Success(()) && records == old(records)[img.id := ToDb(img)]
      ensures inBrowser ==> Lookup(img.id) == Some(img)
      ensures forall id :: id != img.id ==> Lookup(id) == old(Lookup(id))
    {
      if !inBrowser {
        return Failure(ServerContextError);
      }
      DbRoundTrip(img);
      records := records[img.id := ToDb(img)];
      return Success(());
    }

    /** `getImage`: `null` exactly when no record has that id. */
    method GetImage(id: string) returns (r: Result<Option<Image>>)
      requires Valid()
      ensures !inBrowser ==> r == Failure(ServerContextError)
      ensures inBrowser ==> r.Success? && (r.value.Some? <==> id in records)
      ensures inBrowser ==> r.value == Lookup(id)
      ensures r.Success? && r.value.Some? ==> r.value.value.id == id
    {
      if !inBrowser {
        return Failure(ServerContextError);
      }
      if id !in records {
        return Success(None);
      }
      return Success(FromDb(records[id]));
    }

    /** `getUserImages`: every record of `userId` (the `userId` index), newest `updatedAt`
        first. */
    method GetUserImages(userId: string) returns (r: Result<seq<Image>>)
      requires Valid()
      ensures !inBrowser ==> r == Failure(ServerContextError)
      ensures inBrowser ==> r.Success? && SortedDesc(r.value, UpdatedAt)
      ensures r.Success? ==> forall img :: img in r.value ==>
        img.userId == userId && img.id in records && Lookup(img.id) == Some(img)
      ensures r.Success? ==> forall id :: id in records && records[id].userId == userId ==>
        Lookup(id).Some? && Lookup(id).value in r.value
      ensures r.Success? ==> |r.value| == |set id | id in records && records[id].userId == userId|
    {
      if !inBrowser {
        return Failure(ServerContextError);
      }
      var images := CollectSorted(records, UserSelect(userId), UpdatedAt);
      UserListing(records, userId, images);
      return Success(images);
    }

    /** `deleteImage`: deleting an absent id succeeds too. */
    method DeleteImage(id: string) returns (r: Result<()>)
      requires Valid()
      modifies this
      ensures Valid()
      ensures !inBrowser ==> r == Failure(ServerContextError) && records == old(records)
      ensures inBrowser ==> r == Success(()) && records == old(records) - {id}
      ensures inBrowser ==> Lookup(id) == None
    {
      if !inBrowser {
        return Failure(ServerContextError);
      }
      records := records - {id};
      return Success(());
    }

    /** `addImageVersion`. `compressed` is what the compressor makes of the new picture
        (its base64 payload, or the error it rejects with); `now` is the clock. The new
        version's URL is a JPEG data URL of the compressed payload, and it becomes the
        record's picture and last update time. */
    method AddImageVersion(imageId: string, prompt: string, compressed: Result<string>, now: Timestamp)
      returns (r: Result<Option<Image>>)
      requires Valid()
      modifies this
      ensures Valid()
      ensures !inBrowser ==> r == Failure(ServerContextError)
      ensures inBrowser && old(Lookup(imageId)).None? ==> r == Success(None)
      ensures inBrowser && old(Lookup(imageId)).Some? && compressed.Failure? ==> r == Failure(compressed.error)
      ensures inBrowser && old(Lookup(imageId)).Some? && compressed.Success? ==> r.Success? && r.value.Some?
      ensures r.Failure? || r == Success(None) ==> records == old(records)
      ensures r.Success? && r.value.Some? ==>
        var img := old(Lookup(imageId)).value;
        var url := JpegDataUrlPrefix + compressed.value;
        var updated := r.value.value;
        compressed.Success? && old(Lookup(imageId)).Some? &&
        updated.versions == img.versions + [NewVersion(imageId, prompt, url, now)] &&
        updated.imageUrl == url && updated.updatedAt == now &&
        updated.versions[|updated.versions| - 1].createdAt == updated.updatedAt &&
        updated == img.(imageUrl := url, updatedAt := now, versions := updated.versions) &&
        records == old(records)[imageId := ToDb(updated)] &&
        Lookup(imageId) == r.value
    {
      if !inBrowser {
        return Failure(ServerContextError);
      }
      var image := GetImage(imageId);
      if image.value.None? {
        return Success(None);
      }
      if compressed.Failure? {
        return Failure(compressed.error);
      }
      var v := NewVersion(imageId, prompt, JpegDataUrlPrefix + compressed.value, now);
      var updated := AppendVersion(image.value.value, v, now);
      var saved := SaveImage(updated);
      return Success(Some(updated));
    }

    /** `cleanupOldVersions(maxVersions = 5)`: one pass over every record. */
    method CleanupOldVersions(maxVersions: int := DefaultMaxVersions) returns (r: Result<()>)
      requires Valid()
      modifies this
      ensures Valid()
      ensures !inBrowser ==> r == Failure(ServerContextError) && records == old(records)
      ensures inBrowser ==> r == Success(()) && records.Keys == old(records).Keys
      ensures inBrowser ==> forall id :: id in records ==> records[id] == CleanEntry(old(records)[id], maxVersions)
    {
      if !inBrowser {
        return Failure(ServerContextError);
      }
      ghost var before := records;
      var remaining := records.Keys;
      while remaining != {}
        invariant CleanedExcept(before, records, remaining, maxVersions)
        invariant Valid()
        decreases remaining
      {
        var id :| id in remaining;
        var d := records[id];
        CleanStep(before, records, remaining, id, maxVersions);
        CleanStepKeyed(records, id, maxVersions);
        if |d.versions| > maxVersions {
          var image := FromDb(d);
          if image.Some? {
            var trimmed := image.value.(versions := KeepNewest(image.value.versions, maxVersions));
            records := records[trimmed.id := ToDb(trimmed)];
          }
        }
        remaining := remaining - {id};
      }
      return Success(());
    }
  }
}
