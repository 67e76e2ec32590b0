/** Quota accounting and version trimming for the localStorage image records
    (`src/lib/services/storage/storageManager.ts`). The check sums the `length` of every
    value under the app's prefix and compares it with a 5 MiB budget. The cleanup cuts
    every record but the excluded one down to its last five versions. The size of a
    payload is its UTF-8 byte count. */
module StorageManager {
  import opened Types
  import opened Text
  import opened JsonCodec
  import opened Collections
  import opened WebStorage
  import opened ImageStorage

  const MaxStorageVersions: nat := 5
  const EstimatedQuota: int := 5 * 1024 * 1024

  // ---------------------------------------------------------------------------
  // Quota

  /** What one entry counts toward the budget: the `length` of its value when its key
      carries the app prefix, nothing otherwise. */
  function EntryUsage(items: map<string, string>, k: string): nat
    requires k in items
  {
    if StartsWith(k, StoragePrefix) then Utf16Length(items[k]) else 0
  }

  /** The budget used by the entries under `keys`. */
  ghost function UsageOf(items: map<string, string>, keys: set<string>): nat
    requires keys <= items.Keys
    decreases keys
  {
    if keys == {} then 0
    else
      var k :| k in keys;
      EntryUsage(items, k) + UsageOf(items, keys - {k})
  }

  /** The budget used by the whole store. */
  ghost function Usage(items: map<string, string>): nat {
    UsageOf(items, items.Keys)
  }

  /** The sum does not depend on the order the keys are taken in: any key can be taken
      out first. */
  lemma {:induction false} UsageOfRemove(items: map<string, string>, keys: set<string>, k: string)
    requires keys <= items.Keys && k in keys
    ensures UsageOf(items, keys) == EntryUsage(items, k) + UsageOf(items, keys - {k})
    decreases keys
  {
    var j :| j in keys && UsageOf(items, keys) == EntryUsage(items, j) + UsageOf(items, keys - {j});
    if j != k {
      UsageOfRemove(items, keys - {j}, k);
      UsageOfRemove(items, keys - {k}, j);
      assert keys - {j} - {k} == keys - {k} - {j};
    }
  }

  /** Two stores that agree on `keys` use the same budget there. */
  lemma {:induction false} UsageOfAgree(a: map<string, string>, b: map<string, string>, keys: set<string>)
    requires keys <= a.Keys && keys <= b.Keys
    requires forall k :: k in keys ==> a[k] == b[k]
    ensures UsageOf(a, keys) == UsageOf(b, keys)
    decreases keys
  {
    if keys != {} {
      var k :| k in keys;
      UsageOfRemove(a, keys, k);
      UsageOfRemove(b, keys, k);
      UsageOfAgree(a, b, keys - {k});
    }
  }

  /** Entries outside the app's prefix do not count toward the budget. */
  lemma UsageIgnoresOtherKeys(items: map<string, string>, k: string, v: string)
    requires !StartsWith(k, StoragePrefix)
    ensures Usage(items[k := v]) == Usage(items)
  {
    var after := items[k := v];
    var rest := items.Keys - {k};
    UsageOfRemove(after, after.Keys, k);
    assert after.Keys - {k} == rest;
    UsageOfAgree(after, items, rest);
    if k in items {
      UsageOfRemove(items, items.Keys, k);
    } else {
      assert items.Keys == rest;
    }
  }

  /** Removing an entry frees exactly what it counted for. */
  lemma UsageAfterRemove(items: map<string, string>, k: string)
    requires k in items
    ensures Usage(items - {k}) == Usage(items) - EntryUsage(items, k)
  {
    var after := items - {k};
    UsageOfRemove(items, items.Keys, k);
    assert after.Keys == items.Keys - {k};
    UsageOfAgree(after, items, after.Keys);
  }

  /** `hasEnoughStorage(newDataSize)`: outside the browser the answer is `false`. */
  method HasEnoughStorage(ls: LocalStorage, newDataSize: int) returns (ok: bool)
    ensures ok <==> ls.inBrowser && Usage(ls.items) + newDataSize < EstimatedQuota
  {
    if !ls.inBrowser {
      return false;
    }
    var items := ls.items;
    var usage := 0;
    var remaining := items.Keys;
    while remaining != {}
      invariant remaining <= items.Keys
      invariant usage + UsageOf(items, remaining) == Usage(items)
      decreases remaining
    {
      var k :| k in remaining;
      UsageOfRemove(items, remaining, k);
      if StartsWith(k, StoragePrefix) {
        usage := usage + Utf16Length(items[k]);
      }
      remaining := remaining - {k};
    }
    return usage + newDataSize < EstimatedQuota;
  }

  /** `getDataSize(data)`: the byte size of `new Blob([data])`. It is never below the
      `length` the quota check counts, and equals it for ASCII text such as base64. */
  function GetDataSize(data: string): (n: nat)
    ensures n == Utf8Length(data)
    ensures Utf16Length(data) <= n <= 4 * |data|
    ensures IsAscii(data) ==> n == |data|
    ensures !IsAscii(data) ==> Utf16Length(data) < n
  {
    if IsAscii(data) then
      Utf8LengthOfAscii(data);
      Utf8Length(data)
    else
      Utf8ExceedsUtf16WhenNotAscii(data);
      Utf8Length(data)
  }

  // ---------------------------------------------------------------------------
  // Version trimming

  /** `image.versions.slice(-MAX_STORAGE_VERSIONS)` applied to a record with too many
      versions: the last five, in their order, and nothing else about the record. */
  function TrimVersions(img: Image): (r: Image)
    ensures r == img.(versions := r.versions)
    ensures |r.versions| == if |img.versions| <= MaxStorageVersions then |img.versions| else MaxStorageVersions
    ensures r.versions == img.versions[|img.versions| - |r.versions|..]
    ensures WellFormed(img) ==> WellFormed(r)
  {
    if |img.versions| <= MaxStorageVersions then img
    else img.(versions := img.versions[|img.versions| - MaxStorageVersions..])
  }

  /** The record the collecting loop keeps for one storage entry: an image record whose
      id is not the excluded one. */
  function CleanupCandidate(exclude: Option<string>, key: string, value: string): (r: Option<Image>)
    ensures r.Some? ==> StartsWith(key, ImagePrefix) && ParseImageJson(value) == r && exclude != Some(r.value.id)
  {
    if StartsWith(key, ImagePrefix) then
      match ParseImageJson(value)
      case Some(img) => if exclude != Some(img.id) then Some(img) else None
      case None => None
    else None
  }

  /** What the write loop writes for one record: a record with too many versions is
      saved again, trimmed, under its id's key; any other record is skipped. */
  function TrimWrite(img: Image): (w: Option<(string, string)>)
    ensures w.Some? <==> |img.versions| > MaxStorageVersions
    ensures w.Some? ==> w.value == (ImageKey(img.id), StringifyImage(TrimVersions(img)))
  {
    if |img.versions| > MaxStorageVersions then
      var trimmed := TrimVersions(img);
      Some((ImageKey(trimmed.id), StringifyImage(trimmed)))
    else None
  }

  /** What the write loop stores for one record when the browser refuses every
      `setItem` under a key in `refused`: a refused write throws, the loop catches it,
      and the entry keeps its old text. */
  function StoredWrite(refused: set<string>): Image -> Option<(string, string)> {
    img => if TrimWrite(img).Some? && TrimWrite(img).value.0 !in refused then TrimWrite(img) else None
  }

  /** The store after the write loop has visited `imgs` in order. */
  function WriteTrimmed(items: map<string, string>, imgs: seq<Image>, refused: set<string>): map<string, string> {
    WriteEach(items, imgs, StoredWrite(refused))
  }

  /** What one entry becomes after the cleanup. */
  function CleanedEntry(exclude: Option<string>, refused: set<string>, key: string, value: string): string {
    match CleanupCandidate(exclude, key, value)
    case Some(img) =>
      if |img.versions| > MaxStorageVersions && key !in refused then StringifyImage(TrimVersions(img)) else value
    case None => value
  }

  /** The store after `cleanupOldVersions(exclude)`, entry by entry. */
  function Cleaned(items: map<string, string>, exclude: Option<string>, refused: set<string>): (r: map<string, string>)
    ensures r.Keys == items.Keys
  {
    map k | k in items :: CleanedEntry(exclude, refused, k, items[k])
  }

  /** An entry that no visited record stores into is left alone. */
  lemma WriteTrimmedUntouched(items: map<string, string>, imgs: seq<Image>, refused: set<string>, k: string)
    requires k in refused || forall img :: img in imgs && ImageKey(img.id) == k ==> |img.versions| <= MaxStorageVersions
    ensures Untouched(items, WriteTrimmed(items, imgs, refused), k)
  {
    forall i | 0 <= i < |imgs| && StoredWrite(refused)(imgs[i]).Some?
      ensures StoredWrite(refused)(imgs[i]).value.0 != k
    {
      assert imgs[i] in imgs;
    }
    WriteEachUntouched(items, imgs, StoredWrite(refused), k);
  }

  /** When every visited record that writes key `k` is `rec`, entry `k` ends up as
      `rec` trimmed if `rec` was visited with too many versions and the write was not
      refused, and untouched otherwise. */
  lemma WriteTrimmedAt(items: map<string, string>, imgs: seq<Image>, refused: set<string>, rec: Image)
    requires forall img :: img in imgs && ImageKey(img.id) == ImageKey(rec.id) ==> img == rec
    ensures var r := WriteTrimmed(items, imgs, refused);
      if rec in imgs && |rec.versions| > MaxStorageVersions && ImageKey(rec.id) !in refused
      then ImageKey(rec.id) in r && r[ImageKey(rec.id)] == StringifyImage(TrimVersions(rec))
      else Untouched(items, r, ImageKey(rec.id))
  {
    var write := StoredWrite(refused);
    if rec in imgs && |rec.versions| > MaxStorageVersions && ImageKey(rec.id) !in refused {
      var j :| 0 <= j < |imgs| && imgs[j] == rec;
      forall i | j < i < |imgs| && write(imgs[i]).Some? && write(imgs[i]).value.0 == write(imgs[j]).value.0
        ensures write(imgs[i]) == write(imgs[j])
      {
        assert imgs[i] in imgs;
      }
      WriteEachWritten(items, imgs, write, j);
    } else {
      WriteTrimmedUntouched(items, imgs, refused, ImageKey(rec.id));
    }
  }

  /** With every record under its own id's key, a candidate record was read from the
      key of its own id. */
  lemma CandidateAtOwnKey(items: map<string, string>, exclude: Option<string>, k: string)
    requires WellKeyed(items) && k in items && CleanupCandidate(exclude, k, items[k]).Some?
    ensures k == ImageKey(CleanupCandidate(exclude, k, items[k]).value.id)
  {
  }

  /** The write loop's effect on one entry, when each visited record is the candidate at
      its own id's key and every candidate is visited. */
  lemma WriteTrimmedEntry(items: map<string, string>, exclude: Option<string>, refused: set<string>,
                          imgs: seq<Image>, k: string)
    requires forall img :: img in imgs ==>
      ImageKey(img.id) in items && CleanupCandidate(exclude, ImageKey(img.id), items[ImageKey(img.id)]) == Some(img)
    requires k in items && CleanupCandidate(exclude, k, items[k]).Some? ==>
      k == ImageKey(CleanupCandidate(exclude, k, items[k]).value.id) && CleanupCandidate(exclude, k, items[k]).value in imgs
    ensures Untouched(WriteTrimmed(items, imgs, refused), Cleaned(items, exclude, refused), k)
  {
    if k in items && CleanupCandidate(exclude, k, items[k]).Some? {
      var rec := CleanupCandidate(exclude, k, items[k]).value;
      WriteTrimmedAt(items, imgs, refused, rec);
    } else {
      WriteTrimmedUntouched(items, imgs, refused, k);
    }
  }

  /** When every image record sits under its own id's key, the write loop over any
      ordering of the candidate records yields the entry-by-entry result. */
  lemma WriteTrimmedIsCleaned(items: map<string, string>, exclude: Option<string>, refused: set<string>, imgs: seq<Image>)
    requires WellKeyed(items)
    requires forall img :: img in imgs ==>
      exists k :: k in items && CleanupCandidate(exclude, k, items[k]) == Some(img)
    requires forall k :: k in items && CleanupCandidate(exclude, k, items[k]).Some? ==>
      CleanupCandidate(exclude, k, items[k]).value in imgs
    ensures WriteTrimmed(items, imgs, refused) == Cleaned(items, exclude, refused)
  {
    forall img | img in imgs
      ensures ImageKey(img.id) in items && CleanupCandidate(exclude, ImageKey(img.id), items[ImageKey(img.id)]) == Some(img)
    {
      var k :| k in items && CleanupCandidate(exclude, k, items[k]) == Some(img);
      CandidateAtOwnKey(items, exclude, k);
    }
    forall k | k in items && CleanupCandidate(exclude, k, items[k]).Some?
      ensures k == ImageKey(CleanupCandidate(exclude, k, items[k]).value.id)
    {
      CandidateAtOwnKey(items, exclude, k);
    }
    var w := WriteTrimmed(items, imgs, refused);
    var c := Cleaned(items, exclude, refused);
    forall k
      ensures Untouched(w, c, k)
    {
      WriteTrimmedEntry(items, exclude, refused, imgs, k);
    }
    SameEntries(w, c);
  }

  /** The first half of `cleanupOldVersions`: every record the store holds other than
      the excluded one, newest `updatedAt` first. */
  method CollectCandidates(items: map<string, string>, exclude: Option<string>) returns (images: seq<Image>)
    ensures SortedDesc(images, UpdatedAt)
    ensures forall img :: img in images ==>
      exists k :: k in items && CleanupCandidate(exclude, k, items[k]) == Some(img)
    ensures forall k :: k in items && CleanupCandidate(exclude, k, items[k]).Some? ==>
      CleanupCandidate(exclude, k, items[k]).value in images
  {
    var select := (k: string, v: string) => CleanupCandidate(exclude, k, v);
    images := CollectSorted(items, select, UpdatedAt);
  }

  /** The second half of `cleanupOldVersions`: each collected record with too many
      versions is written back with its last five, in the order given; a write the
      browser refuses is caught and changes nothing. */
  method WriteBack(ls: LocalStorage, images: seq<Image>, refused: set<string>)
    requires ls.inBrowser
    modifies ls
    ensures ls.items == WriteTrimmed(old(ls.items), images, refused)
  {
    ghost var items := ls.items;
    for i := 0 to |images|
      invariant ls.items == WriteTrimmed(items, images[..i], refused)
    {
      var image := images[i];
      if |image.versions| > MaxStorageVersions {
        var trimmed := TrimVersions(image);
        var key := ImageKey(trimmed.id);
        ls.SetItem(key, StringifyImage(trimmed), key !in refused);
      }
      WriteEachStep(items, images, StoredWrite(refused), i);
    }
    assert images[..|images|] == images;
  }

  /** No candidate sits under the excluded record's key. */
  lemma CandidatesSpareExcluded(items: map<string, string>, exclude: string, images: seq<Image>)
    requires forall img :: img in images ==>
      exists k :: k in items && CleanupCandidate(Some(exclude), k, items[k]) == Some(img)
    ensures forall img :: img in images ==> ImageKey(img.id) != ImageKey(exclude)
  {
    forall img | img in images
      ensures ImageKey(img.id) != ImageKey(exclude)
    {
      if ImageKey(img.id) == ImageKey(exclude) {
        ImageKeyInjective(img.id, exclude);
      }
    }
  }

  /** Writing back the collected candidates, in any order, never touches the excluded
      record's entry nor an entry whose write is refused, and yields the entry-by-entry
      result when every record sits under its own id's key. */
  lemma WriteBackOutcome(items: map<string, string>, exclude: Option<string>, refused: set<string>, images: seq<Image>)
    requires forall img :: img in images ==>
      exists k :: k in items && CleanupCandidate(exclude, k, items[k]) == Some(img)
    requires forall k :: k in items && CleanupCandidate(exclude, k, items[k]).Some? ==>
      CleanupCandidate(exclude, k, items[k]).value in images
    ensures exclude.Some? ==> Untouched(items, WriteTrimmed(items, images, refused), ImageKey(exclude.value))
    ensures forall k :: k in refused ==> Untouched(items, WriteTrimmed(items, images, refused), k)
    ensures WellKeyed(items) ==> WriteTrimmed(items, images, refused) == Cleaned(items, exclude, refused)
  {
    if exclude.Some? {
      CandidatesSpareExcluded(items, exclude.value, images);
      WriteTrimmedUntouched(items, images, refused, ImageKey(exclude.value));
    }
    forall k | k in refused
      ensures Untouched(items, WriteTrimmed(items, images, refused), k)
    {
      WriteTrimmedUntouched(items, images, refused, k);
    }
    if WellKeyed(items) {
      WriteTrimmedIsCleaned(items, exclude, refused, images);
    }
  }

  /** `cleanupOldVersions(excludeImageId)`. The records are collected, sorted by
      `updatedAt` newest first and visited in that order; `visited` is that order. A record
      with more than five versions is written back with its last five unless the browser
      refuses the write (its key is in `refused`), which is caught. The excluded id's
      entry and every refused key keep their text. When every record sits under its own
      id's key, the store ends up as `Cleaned` describes it. */
  method CleanupOldVersions(ls: LocalStorage, exclude: Option<string>, refused: set<string>)
    returns (ghost visited: seq<Image>)
    modifies ls
    ensures !ls.inBrowser ==> ls.items == old(ls.items)
    ensures ls.inBrowser ==> SortedDesc(visited, UpdatedAt) && ls.items == WriteTrimmed(old(ls.items), visited, refused)
    ensures ls.inBrowser ==> forall img :: img in visited ==>
      exists k :: k in old(ls.items) && CleanupCandidate(exclude, k, old(ls.items)[k]) == Some(img)
    ensures ls.inBrowser ==> forall k :: k in old(ls.items) && CleanupCandidate(exclude, k, old(ls.items)[k]).Some? ==>
      CleanupCandidate(exclude, k, old(ls.items)[k]).value in visited
    ensures exclude.Some? ==> Untouched(old(ls.items), ls.items, ImageKey(exclude.value))
    ensures forall k :: k in refused ==> Untouched(old(ls.items), ls.items, k)
    ensures WellKeyed(old(ls.items)) && ls.inBrowser ==> ls.items == Cleaned(old(ls.items), exclude, refused)
  {
    if !ls.inBrowser {
      return [];
    }
    var images := CollectCandidates(ls.items, exclude);
    visited := images;
    WriteBackOutcome(ls.items, exclude, refused, images);
    WriteBack(ls, images, refused);
  }

  /** After the cleanup, a record other than the excluded one reads back as the same
      record cut to its last five versions, or as it was when its write was refused: at
      most five remain, they are a suffix of the old list, the newest version survives,
      and no other field changes. */
  lemma CleanedRecord(items: map<string, string>, exclude: Option<string>, refused: set<string>, k: string, img: Image)
    requires k in items && StartsWith(k, ImagePrefix)
    requires ParseImageJson(items[k]) == Some(img) && exclude != Some(img.id)
    ensures ParseImageJson(Cleaned(items, exclude, refused)[k]) == Some(if k in refused then img else TrimVersions(img))
    ensures |TrimVersions(img).versions| <= MaxStorageVersions
    ensures img.versions != [] ==> TrimVersions(img).versions[|TrimVersions(img).versions| - 1] == img.versions[|img.versions| - 1]
  {
    assert CleanupCandidate(exclude, k, items[k]) == Some(img);
    var c := Cleaned(items, exclude, refused)[k];
    assert c == CleanedEntry(exclude, refused, k, items[k]);
    if |img.versions| > MaxStorageVersions && k !in refused {
      assert c == StringifyImage(TrimVersions(img));
      ImageJsonRoundTrip(TrimVersions(img));
    } else {
      assert c == items[k];
      if |img.versions| <= MaxStorageVersions {
        assert TrimVersions(img) == img;
      }
    }
  }

  /** The excluded record, a refused key, and every entry that is not an image record,
      is left as it was. */
  lemma CleanedKeepsOthers(items: map<string, string>, exclude: Option<string>, refused: set<string>, k: string)
    requires k in items
    requires k in refused || !StartsWith(k, ImagePrefix) || ParseImageJson(items[k]).None? ||
      exclude == Some(ParseImageJson(items[k]).value.id)
    ensures Cleaned(items, exclude, refused)[k] == items[k]
  {
  }

  /** With every record under its own key, the excluded id's entry is never rewritten. */
  lemma CleanedKeepsExcluded(items: map<string, string>, e: string, refused: set<string>)
    requires WellKeyed(items)
    ensures Untouched(items, Cleaned(items, Some(e), refused), ImageKey(e))
  {
    var k := ImageKey(e);
    if k in items && CleanupCandidate(Some(e), k, items[k]).Some? {
      var img := CleanupCandidate(Some(e), k, items[k]).value;
      ImageKeyInjective(e, img.id);
    }
  }
}
