/**
  * The memory journal's photo handling. Photos live in the browser's
  * key-value storage under `memory_<id>_photo_<i>`, where the id is the
  * server's memory id, or `temp_<ms>` while a new memory is being created.
  * The page restores them by scanning keys 0, 1, ... up to 9, writes them
  * on save, moves them from the temporary id to the server id after
  * creation, and removes keys 0..9 when a memory is deleted. The form's
  * photo list is capped at ten and filtered by size and type; the viewer
  * steps through photos with wrap-around.
  */
module MemoryJournal {
  import opened Common

  // ---------------------------------------------------------------------
  // Keys
  // ---------------------------------------------------------------------

  /** Whose photos a key holds: a memory the server created, or the
      temporary id `temp_<ms>` of a memory being created. */
  datatype MemoryId = Server(id: nat) | Temp(ms: nat)

  const MEMORY_PREFIX := "memory_"
  const PHOTO_INFIX := "_photo_"
  const TEMP_PREFIX := "temp_"

  /** The photos a memory keeps at most, and the keys the page ever reads. */
  const MAX_PHOTOS := 10

  /** `memory_${memoryId}_photo_${index}`. */
  function KeyText(m: MemoryId, i: nat): string {
    MEMORY_PREFIX + KeyRest(m, i)
  }

  /** The part of a key after `memory_`: the id (`temp_` and the clock for a
      temporary one), `_photo_` and the index. */
  function KeyRest(m: MemoryId, i: nat): string {
    match m
    case Server(n) => NatToString(n) + (PHOTO_INFIX + NatToString(i))
    case Temp(ms) => TEMP_PREFIX + (NatToString(ms) + (PHOTO_INFIX + NatToString(i)))
  }

  /** A run of digits followed by a non-digit splits in one way only. */
  lemma SplitAtDigits(d1: string, t1: string, d2: string, t2: string)
    requires AllDigits(d1) && AllDigits(d2)
    requires |t1| > 0 && |t2| > 0 && !IsDigit(t1[0]) && !IsDigit(t2[0])
    requires d1 + t1 == d2 + t2
    ensures d1 == d2 && t1 == t2
  {
    DigitPrefixStopsAtNonDigit(d1, t1);
    DigitPrefixStopsAtNonDigit(d2, t2);
    assert t1 == (d1 + t1)[|d1|..];
    assert t2 == (d2 + t2)[|d2|..];
  }

  lemma DropPrefix(p: string, a: string, b: string)
    requires p + a == p + b
    ensures a == b
  {
    assert a == (p + a)[|p|..];
    assert b == (p + b)[|p|..];
  }

  lemma NumberedSuffix(d1: string, i: nat, d2: string, j: nat)
    requires AllDigits(d1) && AllDigits(d2)
    requires d1 + (PHOTO_INFIX + NatToString(i)) == d2 + (PHOTO_INFIX + NatToString(j))
    ensures d1 == d2 && i == j
  {
    SplitAtDigits(d1, PHOTO_INFIX + NatToString(i), d2, PHOTO_INFIX + NatToString(j));
    DropPrefix(PHOTO_INFIX, NatToString(i), NatToString(j));
    NatToStringInjective(i, j);
  }

  lemma KeyRestStart(m: MemoryId, i: nat)
    ensures |KeyRest(m, i)| > 0
    ensures m.Server? ==> IsDigit(KeyRest(m, i)[0])
    ensures m.Temp? ==> KeyRest(m, i)[0] == 't'
  {
    match m {
      case Server(k) =>
        assert KeyRest(m, i)[0] == NatToString(k)[0];
      case Temp(k) =>
        assert KeyRest(m, i)[0] == TEMP_PREFIX[0];
    }
  }

  lemma TempRestInjective(m: nat, i: nat, n: nat, j: nat)
    requires KeyRest(Temp(m), i) == KeyRest(Temp(n), j)
    ensures m == n && i == j
  {
    var ta, tb := NatToString(m) + (PHOTO_INFIX + NatToString(i)), NatToString(n) + (PHOTO_INFIX + NatToString(j));
    DropPrefix(TEMP_PREFIX, ta, tb);
    NumberedSuffix(NatToString(m), i, NatToString(n), j);
    NatToStringInjective(m, n);
  }

  lemma ServerRestInjective(m: nat, i: nat, n: nat, j: nat)
    requires KeyRest(Server(m), i) == KeyRest(Server(n), j)
    ensures m == n && i == j
  {
    NumberedSuffix(NatToString(m), i, NatToString(n), j);
    NatToStringInjective(m, n);
  }

  /** Distinct (memory, index) pairs have distinct key strings, so the
      storage below may be keyed by the pair itself. */
  lemma KeyInjective(a: MemoryId, i: nat, b: MemoryId, j: nat)
    ensures KeyText(a, i) == KeyText(b, j) ==> a == b && i == j
  {
    if KeyText(a, i) == KeyText(b, j) {
      DropPrefix(MEMORY_PREFIX, KeyRest(a, i), KeyRest(b, j));
      KeyRestStart(a, i);
      KeyRestStart(b, j);
      if a.Server? && b.Server? {
        ServerRestInjective(a.id, i, b.id, j);
      } else if a.Temp? && b.Temp? {
        TempRestInjective(a.ms, i, b.ms, j);
      }
    }
  }

  /** A storage key: a photo's key, or any other key the site stores. */
  datatype StorageKey = PhotoKey(m: MemoryId, i: nat) | OtherKey(name: string)

  /** `localStorage.getItem(key)`: `None` stands for `null`. */
  function Lookup(items: map<StorageKey, string>, k: StorageKey): Option<string> {
    if k in items then Some(items[k]) else None
  }

  // ---------------------------------------------------------------------
  // Restoring: the scan that stops at the first missing key
  // ---------------------------------------------------------------------

  /** The photos the scan collects from index `i` on. */
  function Scan(items: map<StorageKey, string>, m: MemoryId, i: nat): seq<string>
    decreases MAX_PHOTOS - i
  {
    if i >= MAX_PHOTOS then []
    else
      var saved := Lookup(items, PhotoKey(m, i));
      if Truthy(saved) then [saved.value] + Scan(items, m, i + 1) else []
  }

  /** The scan reads indices from `i` on, takes at most the keys below ten,
      takes each present photo in index order, and stops at the first key
      that is missing or empty. */
  lemma {:induction false} ScanFacts(items: map<StorageKey, string>, m: MemoryId, i: nat)
    requires i <= MAX_PHOTOS
    ensures var r := Scan(items, m, i);
            && |r| <= MAX_PHOTOS - i
            && (forall j :: 0 <= j < |r| ==> Lookup(items, PhotoKey(m, i + j)) == Some(r[j]) && r[j] != "")
            && (i + |r| < MAX_PHOTOS ==> !Truthy(Lookup(items, PhotoKey(m, i + |r|))))
    decreases MAX_PHOTOS - i
  {
    if i < MAX_PHOTOS && Truthy(Lookup(items, PhotoKey(m, i))) {
      ScanFacts(items, m, i + 1);
      var r, rest := Scan(items, m, i), Scan(items, m, i + 1);
      forall j | 0 <= j < |r| ensures Lookup(items, PhotoKey(m, i + j)) == Some(r[j]) && r[j] != "" {
        if j > 0 {
          assert r[j] == rest[j - 1] && i + j == (i + 1) + (j - 1);
        }
      }
    }
  }

  // ---------------------------------------------------------------------
  // The form's photo list
  // ---------------------------------------------------------------------

  /** A chosen file: its size in bytes, its MIME type and its data URL. */
  datatype File = File(size: nat, mimeType: string, dataUrl: string)

  const MAX_FILE_SIZE := 5 * 1024 * 1024

  /** The file passes the size check and `file.type.match('image.*')`, which
      finds `image` anywhere in the type. */
  predicate Acceptable(f: File) {
    f.size <= MAX_FILE_SIZE && Includes(f.mimeType, "image")
  }

  /** The data of the acceptable files, in their order. */
  function Accepted(files: seq<File>): (r: seq<string>)
    ensures |r| <= |files|
  {
    if files == [] then []
    else (if Acceptable(files[0]) then [files[0].dataUrl] else []) + Accepted(files[1..])
  }

  /** `files.slice(0, end)`: a negative end counts from the end of the list. */
  function SliceTo(files: seq<File>, end: int): (r: seq<File>)
    ensures |r| <= |files| && r == files[..|r|]
  {
    if end < 0 then files[..if |files| + end < 0 then 0 else |files| + end]
    else files[..if end < |files| then end else |files|]
  }

  /** `handlePhotosChange` as written: the files beyond `10 - photos.length`
      are dropped, the rest filtered and appended. */
  function AddPhotosAsWritten(photos: seq<string>, files: seq<File>): seq<string> {
    if files == [] then photos
    else photos + Accepted(SliceTo(files, MAX_PHOTOS - |photos|))
  }

  /** With eleven photos the remaining room is -1, and `slice(0, -1)` keeps
      all files but the last: three image files raise the count to 13. */
  lemma AsWrittenGrowsPastCap(photos: seq<string>, f: File)
    requires |photos| == 11 && Acceptable(f)
    ensures |AddPhotosAsWritten(photos, [f, f, f])| == 13
  {
    assert SliceTo([f, f, f], -1) == [f, f];
    assert Accepted([f, f]) == [f.dataUrl] + Accepted([f]);
    assert Accepted([f]) == [f.dataUrl] + Accepted([]);
  }

  /** `handlePhotosChange` with the room clamped at zero. */
  function AddPhotos(photos: seq<string>, files: seq<File>): seq<string> {
    var room := MAX_PHOTOS - |photos|;
    if files == [] then photos
    else photos + Accepted(SliceTo(files, if room < 0 then 0 else room))
  }

  /** Adding never takes the list past ten, nor grows a list that is already
      past ten; it appends the acceptable files among the first ones that
      fit, and agrees with the source whenever the list holds at most ten. */
  lemma AddPhotosCapped(photos: seq<string>, files: seq<File>)
    ensures |AddPhotos(photos, files)| <= if |photos| <= MAX_PHOTOS then MAX_PHOTOS else |photos|
    ensures files != [] ==> exists k :: 0 <= k <= |files| && AddPhotos(photos, files) == photos + Accepted(files[..k])
    ensures |photos| <= MAX_PHOTOS ==> AddPhotos(photos, files) == AddPhotosAsWritten(photos, files)
  {
    if files != [] {
      var room := MAX_PHOTOS - |photos|;
      var taken := SliceTo(files, if room < 0 then 0 else room);
      assert AddPhotos(photos, files) == photos + Accepted(files[..|taken|]);
    }
  }

  /** Only acceptable files contribute, in their order. */
  lemma {:induction false} AcceptedMembers(files: seq<File>, x: string)
    ensures x in Accepted(files) <==> exists f :: f in files && Acceptable(f) && f.dataUrl == x
  {
    if files != [] {
      AcceptedMembers(files[1..], x);
      assert forall f :: f in files <==> f == files[0] || f in files[1..];
    }
  }

  /** `prev.photos.filter((_, i) => i !== index)`, from position `from` on. */
  function RemoveAtFrom(photos: seq<string>, index: int, from: nat): seq<string>
    decreases |photos|
  {
    if photos == [] then []
    else (if from == index then [] else [photos[0]]) + RemoveAtFrom(photos[1..], index, from + 1)
  }

  /** `removePhoto(index)`. */
  function RemovePhoto(photos: seq<string>, index: int): seq<string> {
    RemoveAtFrom(photos, index, 0)
  }

  lemma {:induction false} RemoveAtFromSpec(photos: seq<string>, index: int, from: nat)
    ensures from <= index < from + |photos| ==>
              RemoveAtFrom(photos, index, from) == photos[..index - from] + photos[index - from + 1..]
    ensures !(from <= index < from + |photos|) ==> RemoveAtFrom(photos, index, from) == photos
    decreases |photos|
  {
    if photos != [] {
      RemoveAtFromSpec(photos[1..], index, from + 1);
      if from == index {
        assert photos[..0] + photos[1..] == photos[1..];
      } else if from < index < from + |photos| {
        assert [photos[0]] + (photos[1..][..index - from - 1] + photos[1..][index - from..])
            == photos[..index - from] + photos[index - from + 1..];
      } else {
        assert [photos[0]] + photos[1..] == photos;
      }
    }
  }

  /** Removing drops exactly the photo at that position and keeps the others
      in order; a position outside the list changes nothing. */
  lemma RemovePhotoSpec(photos: seq<string>, index: int)
    ensures 0 <= index < |photos| ==> |RemovePhoto(photos, index)| == |photos| - 1
    ensures 0 <= index < |photos| ==>
              forall j :: 0 <= j < |photos| - 1 ==>
                RemovePhoto(photos, index)[j] == if j < index then photos[j] else photos[j + 1]
    ensures !(0 <= index < |photos|) ==> RemovePhoto(photos, index) == photos
  {
    RemoveAtFromSpec(photos, index, 0);
  }

  // ---------------------------------------------------------------------
  // Writing keys: save, migrate, delete
  // ---------------------------------------------------------------------

  /** The storage after the save loop has written photos `0..n-1`. */
  function Saved(items: map<StorageKey, string>, m: MemoryId, photos: seq<string>, n: nat): map<StorageKey, string>
    requires n <= |photos|
  {
    if n == 0 then items else Saved(items, m, photos, n - 1)[PhotoKey(m, n - 1) := photos[n - 1]]
  }

  /** Saving stores photo `i` under key `i` and leaves every other key as it was. */
  lemma {:induction false} SavedSpec(items: map<StorageKey, string>, m: MemoryId, photos: seq<string>, n: nat, k: StorageKey)
    requires n <= |photos|
    ensures forall i :: 0 <= i < n && k == PhotoKey(m, i) ==> Lookup(Saved(items, m, photos, n), k) == Some(photos[i])
    ensures (forall i :: 0 <= i < n ==> k != PhotoKey(m, i)) ==> Lookup(Saved(items, m, photos, n), k) == Lookup(items, k)
  {
    if n > 0 {
      SavedSpec(items, m, photos, n - 1, k);
    }
  }

  /** After saving fewer photos than the memory had, the restore scan brings
      back the photo that was removed: a stale key past the new end is still
      there. */
  lemma StaleKeyResurfaces(items: map<StorageKey, string>, m: MemoryId, photos: seq<string>, old_photo: string)
    requires |photos| < MAX_PHOTOS && old_photo != ""
    requires Lookup(items, PhotoKey(m, |photos|)) == Some(old_photo)
    requires forall i :: 0 <= i < |photos| ==> photos[i] != ""
    ensures |Scan(Saved(items, m, photos, |photos|), m, 0)| > |photos|
  {
    var after := Saved(items, m, photos, |photos|);
    forall i | 0 <= i < |photos| ensures Truthy(Lookup(after, PhotoKey(m, i))) {
      SavedSpec(items, m, photos, |photos|, PhotoKey(m, i));
    }
    assert Truthy(Lookup(after, PhotoKey(m, |photos|))) by {
      SavedSpec(items, m, photos, |photos|, PhotoKey(m, |photos|));
    }
    ScanFacts(after, m, 0);
  }

  /** The storage after keys `from..9` have been removed. */
  function Cleared(items: map<StorageKey, string>, m: MemoryId, from: nat): map<StorageKey, string>
    decreases MAX_PHOTOS - from
  {
    if from >= MAX_PHOTOS then items else Cleared(items - {PhotoKey(m, from)}, m, from + 1)
  }

  lemma {:induction false} ClearedSpec(items: map<StorageKey, string>, m: MemoryId, from: nat, k: StorageKey)
    ensures (exists i :: from <= i < MAX_PHOTOS && k == PhotoKey(m, i)) ==> k !in Cleared(items, m, from)
    ensures (forall i :: from <= i < MAX_PHOTOS ==> k != PhotoKey(m, i)) ==> Lookup(Cleared(items, m, from), k) == Lookup(items, k)
    decreases MAX_PHOTOS - from
  {
    if from < MAX_PHOTOS {
      ClearedSpec(items - {PhotoKey(m, from)}, m, from + 1, k);
    }
  }

  /** The save with the stale keys past the new end removed: photos first
      cleared from key `|photos|` on, then written. */
  function SavedReplacing(items: map<StorageKey, string>, m: MemoryId, photos: seq<string>): map<StorageKey, string> {
    Saved(Cleared(items, m, |photos|), m, photos, |photos|)
  }

  /** With the stale keys cleared, saving then restoring gives back exactly
      the saved photos. */
  lemma SaveReplacingRoundTrip(items: map<StorageKey, string>, m: MemoryId, photos: seq<string>)
    requires |photos| <= MAX_PHOTOS
    requires forall i :: 0 <= i < |photos| ==> photos[i] != ""
    ensures Scan(SavedReplacing(items, m, photos), m, 0) == photos
  {
    var cleared := Cleared(items, m, |photos|);
    var after := SavedReplacing(items, m, photos);
    ScanFacts(after, m, 0);
    var r := Scan(after, m, 0);
    forall i | 0 <= i < |photos| ensures Lookup(after, PhotoKey(m, i)) == Some(photos[i]) {
      SavedSpec(cleared, m, photos, |photos|, PhotoKey(m, i));
    }
    if |photos| < MAX_PHOTOS {
      var k := PhotoKey(m, |photos|);
      assert !Truthy(Lookup(after, k)) by {
        SavedSpec(cleared, m, photos, |photos|, k);
        ClearedSpec(items, m, |photos|, k);
      }
    }
    assert |r| == |photos|;
    forall j | 0 <= j < |r| ensures r[j] == photos[j] {
      assert Lookup(after, PhotoKey(m, 0 + j)) == Some(r[j]);
    }
  }

  /** One step of the migration loop for index `i`. */
  function MigrateStep(items: map<StorageKey, string>, from: MemoryId, to: MemoryId, i: nat): map<StorageKey, string> {
    var data := Lookup(items, PhotoKey(from, i));
    if Truthy(data) then items[PhotoKey(to, i) := data.value] - {PhotoKey(from, i)} else items
  }

  /** The storage after the migration loop has handled indices `0..n-1`. */
  function Migrated(items: map<StorageKey, string>, from: MemoryId, to: MemoryId, n: nat): map<StorageKey, string> {
    if n == 0 then items else MigrateStep(Migrated(items, from, to, n - 1), from, to, n - 1)
  }

  /** A key no migration step touches keeps its value. */
  lemma {:induction false} MigratedOther(items: map<StorageKey, string>, from: MemoryId, to: MemoryId, n: nat, k: StorageKey)
    requires forall i :: 0 <= i < n ==> k != PhotoKey(from, i) && k != PhotoKey(to, i)
    ensures Lookup(Migrated(items, from, to, n), k) == Lookup(items, k)
  {
    if n > 0 {
      MigratedOther(items, from, to, n - 1, k);
    }
  }

  /** For each index below `n` whose temporary key holds a photo, the
      permanent key gets that photo and the temporary key is removed;
      otherwise both keys keep their values. */
  lemma MigratedAt(items: map<StorageKey, string>, from: MemoryId, to: MemoryId, n: nat, i: nat)
    requires from != to && i < n
    ensures var after, data := Migrated(items, from, to, n), Lookup(items, PhotoKey(from, i));
            && (Truthy(data) ==> Lookup(after, PhotoKey(to, i)) == data && PhotoKey(from, i) !in after)
            && (!Truthy(data) ==> Lookup(after, PhotoKey(to, i)) == Lookup(items, PhotoKey(to, i))
                                  && Lookup(after, PhotoKey(from, i)) == data)
  {
    MigratedOther(items, from, to, i, PhotoKey(from, i));
    MigratedOther(items, from, to, i, PhotoKey(to, i));
    MigratedLater(items, from, to, i + 1, n, i);
  }

  /** Steps after index `i` do not touch the two keys of index `i`. */
  lemma {:induction false} MigratedLater(items: map<StorageKey, string>, from: MemoryId, to: MemoryId, lo: nat, n: nat, i: nat)
    requires from != to && i < lo <= n
    ensures Lookup(Migrated(items, from, to, n), PhotoKey(from, i)) == Lookup(Migrated(items, from, to, lo), PhotoKey(from, i))
    ensures Lookup(Migrated(items, from, to, n), PhotoKey(to, i)) == Lookup(Migrated(items, from, to, lo), PhotoKey(to, i))
    decreases n - lo
  {
    if n > lo {
      MigratedLater(items, from, to, lo, n - 1, i);
    }
  }

  /** The storage after the delete loop: keys `0..9` of the memory removed. */
  function Deleted(items: map<StorageKey, string>, m: MemoryId): map<StorageKey, string> {
    Cleared(items, m, 0)
  }

  /** Deleting a memory removes its keys 0..9 and nothing that belongs to
      another memory or lies past index 9. */
  lemma DeletedSpec(items: map<StorageKey, string>, m: MemoryId, other: MemoryId, j: nat)
    ensures j < MAX_PHOTOS ==> PhotoKey(m, j) !in Deleted(items, m)
    ensures other != m || j >= MAX_PHOTOS ==>
              Lookup(Deleted(items, m), PhotoKey(other, j)) == Lookup(items, PhotoKey(other, j))
  {
    ClearedSpec(items, m, 0, PhotoKey(m, j));
    ClearedSpec(items, m, 0, PhotoKey(other, j));
  }

  // ---------------------------------------------------------------------
  // The viewer
  // ---------------------------------------------------------------------

  /** `nextPhoto`: `prev < length - 1 ? prev + 1 : 0`; without a photo list
      the index stays. */
  function NextPhoto(index: int, count: Option<nat>): int {
    if count.None? then index
    else if index < count.value - 1 then index + 1 else 0
  }

  /** `prevPhoto`: `prev > 0 ? prev - 1 : length - 1`. */
  function PrevPhoto(index: int, count: Option<nat>): int {
    if count.None? then index
    else if index > 0 then index - 1 else count.value - 1
  }

  /** Within a non-empty list both moves stay in range, wrap at the ends, and
      undo each other. */
  lemma ViewerWraps(index: int, n: nat)
    requires 0 <= index < n
    ensures 0 <= NextPhoto(index, Some(n)) < n && 0 <= PrevPhoto(index, Some(n)) < n
    ensures index == n - 1 ==> NextPhoto(index, Some(n)) == 0
    ensures index == 0 ==> PrevPhoto(index, Some(n)) == n - 1
    ensures PrevPhoto(NextPhoto(index, Some(n)), Some(n)) == index
    ensures NextPhoto(PrevPhoto(index, Some(n)), Some(n)) == index
  {
  }

  // ---------------------------------------------------------------------
  // The browser storage and the page's loops over it
  // ---------------------------------------------------------------------

  /** `localStorage` as the page uses it. */
  class PhotoStorage {
    var items: map<StorageKey, string>

    constructor (items: map<StorageKey, string>)
      ensures this.items == items
    {
      this.items := items;
    }

    /** The restore loop of `loadData` and `handleEdit`: the server's photos,
        then the stored ones from index 0 up to the first missing key. */
    method RestorePhotos(serverPhotos: seq<string>, m: MemoryId) returns (photos: seq<string>)
      ensures photos == serverPhotos + Scan(items, m, 0)
    {
      var local: seq<string> := [];
      var i := 0;
      while i < MAX_PHOTOS
        invariant 0 <= i <= MAX_PHOTOS
        invariant local + Scan(items, m, i) == Scan(items, m, 0)
      {
        var saved := Lookup(items, PhotoKey(m, i));
        if Truthy(saved) {
          assert Scan(items, m, i) == [saved.value] + Scan(items, m, i + 1);
          local := local + [saved.value];
        } else {
          assert Scan(items, m, i) == [];
          assert local == Scan(items, m, 0);
          break;
        }
        i := i + 1;
      }
      assert local == Scan(items, m, 0);
      photos := serverPhotos + local;
    }

    /** The save loop of `handleSubmit`: photo `i` under key `i`. */
    method SavePhotos(m: MemoryId, photos: seq<string>)
      modifies this
      ensures items == Saved(old(items), m, photos, |photos|)
    {
      var i := 0;
      while i < |photos|
        invariant 0 <= i <= |photos|
        invariant items == Saved(old(items), m, photos, i)
      {
        items := items[PhotoKey(m, i) := photos[i]];
        i := i + 1;
      }
    }

    /** The save with the stale keys past the new end removed first. */
    method SavePhotosReplacing(m: MemoryId, photos: seq<string>)
      modifies this
      ensures items == SavedReplacing(old(items), m, photos)
    {
      var i := |photos|;
      while i < MAX_PHOTOS
        invariant |photos| <= i
        invariant Cleared(items, m, i) == Cleared(old(items), m, |photos|)
        decreases MAX_PHOTOS - i
      {
        items := items - {PhotoKey(m, i)};
        i := i + 1;
      }
      SavePhotos(m, photos);
    }

    /** The migration loop: photos move from the temporary id to the id the
        server assigned. */
    method MigratePhotos(from: MemoryId, to: MemoryId, count: nat)
      modifies this
      ensures items == Migrated(old(items), from, to, count)
    {
      var i := 0;
      while i < count
        invariant 0 <= i <= count
        invariant items == Migrated(old(items), from, to, i)
      {
        var data := Lookup(items, PhotoKey(from, i));
        if Truthy(data) {
          items := items[PhotoKey(to, i) := data.value];
          items := items - {PhotoKey(from, i)};
        }
        i := i + 1;
      }
    }

    /** The delete loop of `handleDelete`. */
    method DeletePhotos(m: MemoryId)
      modifies this
      ensures items == Deleted(old(items), m)
    {
      var i := 0;
      while i < MAX_PHOTOS
        invariant 0 <= i <= MAX_PHOTOS
        invariant Cleared(items, m, i) == Cleared(old(items), m, 0)
      {
        items := items - {PhotoKey(m, i)};
        i := i + 1;
      }
    }

    /** What `handleSubmit` does to the storage: nothing for a blank title;
        otherwise the photos are saved under the edited memory's id or a
        temporary id made from the clock, and after a creation that returns
        a truthy id they move to that id. The save clears stale keys first. */
    method Submit(title: string, photos: seq<string>, editing: Option<nat>, now: nat, createdId: Option<nat>)
      returns (saved: bool)
      modifies this
      ensures saved <==> !IsBlank(title)
      ensures !saved ==> items == old(items)
      ensures saved && editing.Some? ==> items == SavedReplacing(old(items), Server(editing.value), photos)
      ensures saved && editing.None? && (createdId.None? || createdId.value == 0) ==>
                items == SavedReplacing(old(items), Temp(now), photos)
      ensures saved && editing.None? && createdId.Some? && createdId.value != 0 ==>
                items == Migrated(SavedReplacing(old(items), Temp(now), photos), Temp(now), Server(createdId.value), |photos|)
    {
      if IsBlank(title) {
        return false;
      }
      var m := if editing.Some? then Server(editing.value) else Temp(now);
      SavePhotosReplacing(m, photos);
      if editing.None? && createdId.Some? && createdId.value != 0 {
        MigratePhotos(m, Server(createdId.value), |photos|);
      }
      saved := true;
    }
  }
}
