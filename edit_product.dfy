/**
 * The "edit product" form: the images the product already has (loaded from
 * its six image slots), newly uploaded files, the main-image choice across
 * both lists, the chosen categories, and the multipart fields submit sends.
 */
module EditProduct {
  import opened Wrappers
  import opened Text
  import Lists
  import opened ProductImages
  import AddProducts

  const MaxImages := 6

  const TooManyImages := "Maximum 6 images allowed"

  const NotSellerError := "Unauthorized: Seller access required"

  const LoadFailedError := "Failed to load product data. Please try again."

  /** An image the product already has: its URL, slot id and main flag. */
  datatype ExistingImage = ExistingImage(url: string, id: string, isMain: bool)

  /** A file uploaded in this form. */
  datatype NewImage = NewImage(file: nat, isMain: bool)

  datatype Category = Category(id: int, name: string)

  /** A field of the submission: a file, or the JSON list of existing images. */
  datatype EditField = FileField(name: string, file: nat) | ExistingImagesField(images: seq<ExistingImage>)

  /** How the mount-time fetch of the categories, the user and the product ended. */
  datatype LoadOutcome =
    | Loaded(p: ImageSlots, categoryIds: seq<int>)
    | NotSeller
    | LoadFailed

  // ---------------------------------------------------------------------
  // Loading the existing images
  // ---------------------------------------------------------------------

  /** The main image entry, when the product has a main image URL. */
  function MainEntry(p: ImageSlots): seq<ExistingImage> {
    if Present(p.main) then [ExistingImage(p.main.value, "main", true)] else []
  }

  /** The entry for extra slot number `k`, when it holds a URL. */
  function SlotEntry(slot: Option<string>, k: nat): seq<ExistingImage> {
    if Present(slot) then [ExistingImage(slot.value, AddProducts.ImageFieldName(k), false)] else []
  }

  /** Entries for the extra slots `ks` (slot k holds image k), skipping empty ones. */
  function ExtraEntries(ks: seq<Option<string>>): (r: seq<ExistingImage>)
    ensures |r| <= |ks|
  {
    if ks == [] then [] else ExtraEntries(ks[..|ks| - 1]) + SlotEntry(ks[|ks| - 1], |ks|)
  }

  /** One more slot adds its entry, if any, at the end. */
  lemma ExtraEntriesSnoc(ks: seq<Option<string>>, k: nat)
    requires k < |ks|
    ensures ExtraEntries(ks[..k + 1]) == ExtraEntries(ks[..k]) + SlotEntry(ks[k], k + 1)
  {
    assert ks[..k + 1][..k] == ks[..k];
  }

  lemma SeqAssoc<T>(a: seq<T>, b: seq<T>, c: seq<T>)
    ensures (a + b) + c == a + (b + c)
  {
  }

  function ExtraSlots(p: ImageSlots): seq<Option<string>> {
    [p.image1, p.image2, p.image3, p.image4, p.image5]
  }

  /** The loaded list: main first (id "main"), then image1..image5 as present. */
  function LoadedImages(p: ImageSlots): seq<ExistingImage> {
    MainEntry(p) + ExtraEntries(ExtraSlots(p))
  }

  /** The push loop that builds the existing-image list. */
  method AssembleImages(p: ImageSlots) returns (images: seq<ExistingImage>)
    ensures images == LoadedImages(p)
  {
    images := [];
    if Present(p.main) {
      images := images + [ExistingImage(p.main.value, "main", true)];
    }
    ghost var mainEntry := images;
    assert mainEntry == MainEntry(p);
    var keys := ExtraSlots(p);
    var index := 0;
    while index < |keys|
      invariant 0 <= index <= |keys|
      invariant images == mainEntry + ExtraEntries(keys[..index])
    {
      ghost var prev := images;
      if Present(keys[index]) {
        images := images + [ExistingImage(keys[index].value, AddProducts.ImageFieldName(index + 1), false)];
      }
      assert images == prev + SlotEntry(keys[index], index + 1);
      ExtraEntriesSnoc(keys, index);
      SeqAssoc(mainEntry, ExtraEntries(keys[..index]), SlotEntry(keys[index], index + 1));
      index := index + 1;
    }
    assert keys[..index] == keys;
  }

  function Urls(images: seq<ExistingImage>): (r: seq<string>)
    ensures |r| == |images|
    ensures forall i :: 0 <= i < |images| ==> r[i] == images[i].url
  {
    seq(|images|, i requires 0 <= i < |images| => images[i].url)
  }

  lemma {:induction false} ExtraEntriesProperties(ks: seq<Option<string>>)
    ensures Urls(ExtraEntries(ks)) == PresentUrls(ks)
    ensures forall i :: 0 <= i < |ExtraEntries(ks)| ==> !ExtraEntries(ks)[i].isMain
  {
    if ks != [] {
      var init, last := ks[..|ks| - 1], ks[|ks| - 1];
      ExtraEntriesProperties(init);
      assert ks == init + [last];
      PresentUrlsAppend(init, [last]);
      assert PresentUrls([last]) == (if Present(last) then [last.value] else []) + PresentUrls([last][1..]);
    }
  }

  /** The loaded list shows the product's present image URLs in slot order,
      at most six, and only the main slot's entry is marked main. */
  lemma LoadedImagesProperties(p: ImageSlots)
    ensures Urls(LoadedImages(p)) == PresentUrls(Slots(p))
    ensures |LoadedImages(p)| <= MaxImages
    ensures forall i :: 0 <= i < |LoadedImages(p)| ==>
      (LoadedImages(p)[i].isMain <==> i == 0 && Present(p.main))
  {
    LoadedImageUrls(p);
    LoadedImageFlags(p);
  }

  lemma LoadedImageUrls(p: ImageSlots)
    ensures Urls(LoadedImages(p)) == PresentUrls(Slots(p))
  {
    var ks := ExtraSlots(p);
    assert Slots(p) == [p.main] + ks;
    MainThenExtraUrls(MainEntry(p), p.main, ks);
  }

  /** The URLs of a main entry for slot `m` followed by the extra slots' entries. */
  lemma MainThenExtraUrls(main: seq<ExistingImage>, m: Option<string>, ks: seq<Option<string>>)
    requires Urls(main) == PresentUrls([m])
    ensures Urls(main + ExtraEntries(ks)) == PresentUrls([m] + ks)
  {
    ExtraEntriesProperties(ks);
    PresentUrlsAppend([m], ks);
    UrlsAppend(main, ExtraEntries(ks));
  }

  lemma UrlsAppend(a: seq<ExistingImage>, b: seq<ExistingImage>)
    ensures Urls(a + b) == Urls(a) + Urls(b)
  {
    forall i | 0 <= i < |a + b|
      ensures Urls(a + b)[i] == (Urls(a) + Urls(b))[i]
    {
      if i >= |a| {
        assert (a + b)[i] == b[i - |a|];
      }
    }
  }

  lemma LoadedImageFlags(p: ImageSlots)
    ensures |LoadedImages(p)| <= MaxImages
    ensures forall i :: 0 <= i < |LoadedImages(p)| ==>
      (LoadedImages(p)[i].isMain <==> i == 0 && Present(p.main))
  {
    ExtraEntriesProperties(ExtraSlots(p));
  }

  // ---------------------------------------------------------------------
  // Main-image bookkeeping across both lists
  // ---------------------------------------------------------------------

  predicate AnyExistingMain(e: seq<ExistingImage>) {
    exists i :: 0 <= i < |e| && e[i].isMain
  }

  predicate AnyNewMain(n: seq<NewImage>) {
    exists i :: 0 <= i < |n| && n[i].isMain
  }

  /** No two images, in either list, are both main. */
  predicate AtMostOneMain(e: seq<ExistingImage>, n: seq<NewImage>) {
    (forall i, j :: 0 <= i < |e| && 0 <= j < |e| && e[i].isMain && e[j].isMain ==> i == j)
    && (forall i, j :: 0 <= i < |n| && 0 <= j < |n| && n[i].isMain && n[j].isMain ==> i == j)
    && !(AnyExistingMain(e) && AnyNewMain(n))
  }

  /** Exactly one image across both lists is main. */
  predicate ExactlyOneMain(e: seq<ExistingImage>, n: seq<NewImage>) {
    AtMostOneMain(e, n) && (AnyExistingMain(e) || AnyNewMain(n))
  }

  /** `setMainImage(index, 'existing')`: existing image `index` only. */
  function MainAmongExisting(e: seq<ExistingImage>, index: int): (r: seq<ExistingImage>)
    ensures |r| == |e|
    ensures forall i :: 0 <= i < |e| ==> r[i] == e[i].(isMain := i == index)
  {
    seq(|e|, i requires 0 <= i < |e| => e[i].(isMain := i == index))
  }

  /** `setMainImage(index, 'new')`: new image `index` only. */
  function MainAmongNew(n: seq<NewImage>, index: int): (r: seq<NewImage>)
    ensures |r| == |n|
    ensures forall i :: 0 <= i < |n| ==> r[i] == n[i].(isMain := i == index)
  {
    seq(|n|, i requires 0 <= i < |n| => n[i].(isMain := i == index))
  }

  /** Choosing a main image in either list leaves exactly that one main. */
  lemma SetMainExactlyOne(e: seq<ExistingImage>, n: seq<NewImage>, index: nat, existing: bool)
    requires if existing then index < |e| else index < |n|
    ensures existing ==> ExactlyOneMain(MainAmongExisting(e, index), MainAmongNew(n, -1))
    ensures existing ==> MainAmongExisting(e, index)[index].isMain
    ensures !existing ==> ExactlyOneMain(MainAmongExisting(e, -1), MainAmongNew(n, index))
    ensures !existing ==> MainAmongNew(n, index)[index].isMain
  {
    if existing {
      assert MainAmongExisting(e, index)[index].isMain;
    } else {
      assert MainAmongNew(n, index)[index].isMain;
    }
  }

  // ---------------------------------------------------------------------
  // Upload and removal
  // ---------------------------------------------------------------------

  /** New files are appended, none main, unless the total would pass six. */
  function UploadNew(e: seq<ExistingImage>, n: seq<NewImage>, files: seq<nat>): (r: Result<seq<NewImage>, string>)
    ensures r.Failure? <==> |e| + |n| + |files| > MaxImages
    ensures r.Failure? ==> r.error == TooManyImages
    ensures r.Success? ==>
      |r.value| == |n| + |files| && r.value[..|n|] == n
      && forall i :: 0 <= i < |files| ==> r.value[|n| + i] == NewImage(files[i], false)
  {
    if |e| + |n| + |files| > MaxImages then Failure(TooManyImages)
    else Success(n + seq(|files|, i requires 0 <= i < |files| => NewImage(files[i], false)))
  }

  /** `filter((_, i) => i !== index)`: an index outside the list removes nothing. */
  function RemoveIndex<T>(s: seq<T>, index: int): (r: seq<T>)
    ensures 0 <= index < |s| ==> r == Lists.RemoveAt(s, index)
    ensures !(0 <= index < |s|) ==> r == s
  {
    if 0 <= index < |s| then Lists.RemoveAt(s, index) else s
  }

  /** Uploading adds no main image. */
  lemma UploadKeepsAtMostOneMain(e: seq<ExistingImage>, n: seq<NewImage>, files: seq<nat>)
    requires AtMostOneMain(e, n)
    ensures UploadNew(e, n, files).Success? ==> AtMostOneMain(e, UploadNew(e, n, files).value)
  {
    var r := UploadNew(e, n, files);
    if r.Success? {
      var v := r.value;
      forall i | |n| <= i < |v| ensures !v[i].isMain {
        assert v[i] == v[|n| + (i - |n|)];
      }
      forall i | 0 <= i < |n| ensures v[i] == n[i] {
        assert v[i] == v[..|n|][i];
      }
      assert AnyNewMain(v) ==> AnyNewMain(n);
    }
  }

  /** Where entry `i` of the list came from once entry `k` was removed. */
  function KeptIndex(k: int, len: nat, i: nat): nat {
    if 0 <= k < len && i >= k then i + 1 else i
  }

  lemma RemoveIndexAt<T>(s: seq<T>, k: int, i: nat)
    requires i < |RemoveIndex(s, k)|
    ensures KeptIndex(k, |s|, i) < |s| && RemoveIndex(s, k)[i] == s[KeptIndex(k, |s|, i)]
  {
  }

  /** Removing an existing image never creates a second main image. */
  lemma RemoveExistingKeepsAtMostOneMain(e: seq<ExistingImage>, n: seq<NewImage>, k: int)
    requires AtMostOneMain(e, n)
    ensures AtMostOneMain(RemoveIndex(e, k), n)
  {
    var e' := RemoveIndex(e, k);
    forall i | 0 <= i < |e'| ensures e'[i] == e[KeptIndex(k, |e|, i)] {
      RemoveIndexAt(e, k, i);
    }
    assert AnyExistingMain(e') ==> AnyExistingMain(e);
  }

  /** Removing a new image never creates a second main image. */
  lemma RemoveNewKeepsAtMostOneMain(e: seq<ExistingImage>, n: seq<NewImage>, k: int)
    requires AtMostOneMain(e, n)
    ensures AtMostOneMain(e, RemoveIndex(n, k))
  {
    var n' := RemoveIndex(n, k);
    forall i | 0 <= i < |n'| ensures n'[i] == n[KeptIndex(k, |n|, i)] {
      RemoveIndexAt(n, k, i);
    }
    assert AnyNewMain(n') ==> AnyNewMain(n);
  }

  // ---------------------------------------------------------------------
  // Categories
  // ---------------------------------------------------------------------

  /** Categories whose name matches the search, leaving out those already chosen. */
  function FilteredCategories(categories: seq<Category>, search: string, chosen: seq<int>): (r: seq<Category>)
    ensures forall i :: 0 <= i < |r| ==>
      ContainsIgnoringCase(r[i].name, search) && r[i].id !in chosen && r[i] in categories
    ensures forall i :: 0 <= i < |categories| ==>
      (ContainsIgnoringCase(categories[i].name, search) && categories[i].id !in chosen ==> categories[i] in r)
  {
    Lists.Filter(categories, (c: Category) => ContainsIgnoringCase(c.name, search) && c.id !in chosen)
  }

  /** Selecting a category offered by the search box never duplicates one, even
      though the select handler itself appends without checking. */
  lemma SelectFromFilteredStaysDistinct(categories: seq<Category>, search: string, chosen: seq<int>, k: nat)
    requires Lists.Distinct(chosen)
    requires k < |FilteredCategories(categories, search, chosen)|
    ensures Lists.Distinct(chosen + [FilteredCategories(categories, search, chosen)[k].id])
  {
  }

  // ---------------------------------------------------------------------
  // Submit
  // ---------------------------------------------------------------------

  /** `main_image` for a main new image, `image<index>` otherwise. */
  function NewImageField(img: NewImage, index: nat): EditField {
    if img.isMain then FileField("main_image", img.file) else FileField(AddProducts.ImageFieldName(index), img.file)
  }

  function NewImageFields(n: seq<NewImage>): (r: seq<EditField>)
    ensures |r| == |n|
    ensures forall i :: 0 <= i < |n| ==> r[i] == NewImageField(n[i], i)
  {
    seq(|n|, i requires 0 <= i < |n| => NewImageField(n[i], i))
  }

  /** With no main image anywhere, the first existing image is re-sent as main,
      or else the first new file is sent as `main_image`. */
  function Fallback(e: seq<ExistingImage>, n: seq<NewImage>): seq<EditField> {
    if !AnyExistingMain(e) && !AnyNewMain(n) && (|e| > 0 || |n| > 0) then
      if |e| > 0 then [ExistingImagesField(e[0 := e[0].(isMain := true)])]
      else [FileField("main_image", n[0].file)]
    else []
  }

  /** The image part of the submission, in append order. */
  function SubmitFields(e: seq<ExistingImage>, n: seq<NewImage>): seq<EditField> {
    [ExistingImagesField(e)] + NewImageFields(n) + Fallback(e, n)
  }

  predicate IsMainImageField(f: EditField) {
    f.FileField? && f.name == "main_image"
  }

  /** With at most one main image the submission carries at most one `main_image`
      file, and with none at all it still designates a main image. */
  lemma SubmitFieldsMainImage(e: seq<ExistingImage>, n: seq<NewImage>)
    requires AtMostOneMain(e, n)
    ensures forall i, j :: 0 <= i < j < |SubmitFields(e, n)| ==>
      !(IsMainImageField(SubmitFields(e, n)[i]) && IsMainImageField(SubmitFields(e, n)[j]))
    ensures !AnyExistingMain(e) && !AnyNewMain(n) && |e| > 0 ==>
      SubmitFields(e, n)[|SubmitFields(e, n)| - 1] == ExistingImagesField(e[0 := e[0].(isMain := true)])
    ensures !AnyExistingMain(e) && !AnyNewMain(n) && |e| == 0 && |n| > 0 ==>
      SubmitFields(e, n)[|SubmitFields(e, n)| - 1] == FileField("main_image", n[0].file)
  {
    var f := SubmitFields(e, n);
    forall i, j | 0 <= i < j < |f| ensures !(IsMainImageField(f[i]) && IsMainImageField(f[j])) {
      MainImageFieldPosition(e, n, i);
      MainImageFieldPosition(e, n, j);
    }
  }

  /** A `main_image` field is either the file of the one main new image, or the
      fallback right after the new files when no new image is main. */
  lemma MainImageFieldPosition(e: seq<ExistingImage>, n: seq<NewImage>, i: nat)
    requires AtMostOneMain(e, n)
    requires i < |SubmitFields(e, n)|
    ensures IsMainImageField(SubmitFields(e, n)[i]) ==>
      (1 <= i <= |n| && n[i - 1].isMain && forall k :: 0 <= k < |n| && n[k].isMain ==> k == i - 1)
      || (i == |n| + 1 && forall k :: 0 <= k < |n| ==> !n[k].isMain)
  {
    var f := SubmitFields(e, n);
    if 1 <= i <= |n| {
      assert f[i] == NewImageField(n[i - 1], i - 1);
      AddProducts.ImageFieldNameNotMain(i - 1);
    } else if i > |n| {
      assert f[i] == Fallback(e, n)[i - 1 - |n|];
    }
  }

  /** The submit loop over the new images, then the main-image fallback. */
  method SubmitImageFields(e: seq<ExistingImage>, n: seq<NewImage>) returns (fields: seq<EditField>)
    ensures fields == SubmitFields(e, n)
  {
    fields := [ExistingImagesField(e)];
    var mainImageFound := exists i :: 0 <= i < |e| && e[i].isMain;
    var index := 0;
    while index < |n|
      invariant 0 <= index <= |n|
      invariant fields == [ExistingImagesField(e)] + NewImageFields(n)[..index]
      invariant mainImageFound == (AnyExistingMain(e) || exists i :: 0 <= i < index && n[i].isMain)
    {
      assert NewImageFields(n)[..index + 1] == NewImageFields(n)[..index] + [NewImageField(n[index], index)];
      if n[index].isMain {
        fields := fields + [FileField("main_image", n[index].file)];
        mainImageFound := true;
      } else {
        fields := fields + [FileField(AddProducts.ImageFieldName(index), n[index].file)];
      }
      index := index + 1;
    }
    assert NewImageFields(n)[..index] == NewImageFields(n);
    if !mainImageFound && (|e| > 0 || |n| > 0) {
      if |e| > 0 {
        var updated := e[0 := e[0].(isMain := true)];
        fields := fields + [ExistingImagesField(updated)];
      } else {
        fields := fields + [FileField("main_image", n[0].file)];
      }
    }
  }

  /** `disabled={loading || existing + new === 0 || categories.length === 0}`. */
  predicate CanSubmit(loading: bool, e: seq<ExistingImage>, n: seq<NewImage>, chosen: seq<int>) {
    !loading && |e| + |n| > 0 && chosen != []
  }

  /** The submission names a main image: a `main_image` file, or an existing
      image marked main in a list of existing images. */
  predicate DesignatesMain(fields: seq<EditField>) {
    exists k :: 0 <= k < |fields| &&
      (IsMainImageField(fields[k]) || (fields[k].ExistingImagesField? && AnyExistingMain(fields[k].images)))
  }

  /** Whatever the form holds when submit is enabled, the submission names a main
      image and carries a category. */
  lemma CanSubmitDesignatesMain(loading: bool, e: seq<ExistingImage>, n: seq<NewImage>, chosen: seq<int>)
    requires CanSubmit(loading, e, n, chosen)
    ensures chosen != []
    ensures DesignatesMain(SubmitFields(e, n))
  {
    var f := SubmitFields(e, n);
    if AnyExistingMain(e) {
      assert f[0] == ExistingImagesField(e);
    } else if AnyNewMain(n) {
      var i :| 0 <= i < |n| && n[i].isMain;
      assert f[i + 1] == NewImageField(n[i], i);
    } else if |e| > 0 {
      var e' := e[0 := e[0].(isMain := true)];
      assert f[|f| - 1] == ExistingImagesField(e') && e'[0].isMain;
    } else {
      assert f[|f| - 1] == FileField("main_image", n[0].file);
    }
  }

  // ---------------------------------------------------------------------
  // The form
  // ---------------------------------------------------------------------

  class EditProductForm {
    var existingImages: seq<ExistingImage>
    var newImages: seq<NewImage>
    var chosen: seq<int>
    var error: string
    var showCategoryDropdown: bool
    var searchValue: string

    /** At most six images, and at most one of them main. */
    predicate Valid()
      reads this
    {
      |existingImages| + |newImages| <= MaxImages && AtMostOneMain(existingImages, newImages)
    }

    constructor ()
      ensures existingImages == [] && newImages == [] && chosen == [] && error == []
      ensures !showCategoryDropdown && searchValue == []
      ensures Valid()
    {
      existingImages := [];
      newImages := [];
      chosen := [];
      error := [];
      showCategoryDropdown := false;
      searchValue := [];
    }

    /** The mount-time fetch ended. A loaded product's categories and images
        replace the form's; a user who is not a seller, or any failed request,
        only sets the error. The form shows only a loader until the fetch is
        done, so no file has been added yet. */
    method Load(outcome: LoadOutcome)
      modifies this
      requires Valid() && newImages == []
      ensures Valid()
      ensures outcome.Loaded? ==>
        existingImages == LoadedImages(outcome.p) && chosen == outcome.categoryIds && error == old(error)
      ensures outcome.NotSeller? ==>
        existingImages == old(existingImages) && chosen == old(chosen) && error == NotSellerError
      ensures outcome.LoadFailed? ==>
        existingImages == old(existingImages) && chosen == old(chosen) && error == LoadFailedError
      ensures newImages == old(newImages)
      ensures showCategoryDropdown == old(showCategoryDropdown) && searchValue == old(searchValue)
    {
      match outcome
      case NotSeller =>
        error := NotSellerError;
      case LoadFailed =>
        error := LoadFailedError;
      case Loaded(p, categoryIds) =>
        LoadedImagesProperties(p);
        var imgs := AssembleImages(p);
        existingImages := imgs;
        chosen := categoryIds;
        forall i, j | 0 <= i < |imgs| && 0 <= j < |imgs| && imgs[i].isMain && imgs[j].isMain ensures i == j {
        }
    }

    method HandleImageUpload(files: seq<nat>)
      modifies this
      requires Valid()
      ensures Valid()
      ensures existingImages == old(existingImages)
      ensures UploadNew(old(existingImages), old(newImages), files).Failure? ==>
        newImages == old(newImages) && error == TooManyImages
      ensures UploadNew(old(existingImages), old(newImages), files).Success? ==>
        newImages == UploadNew(old(existingImages), old(newImages), files).value && error == []
      ensures chosen == old(chosen)
      ensures showCategoryDropdown == old(showCategoryDropdown) && searchValue == old(searchValue)
    {
      UploadKeepsAtMostOneMain(existingImages, newImages, files);
      var r := UploadNew(existingImages, newImages, files);
      if r.Failure? {
        error := r.error;
        return;
      }
      newImages := r.value;
      error := [];
    }

    method RemoveExistingImage(index: int)
      modifies this
      requires Valid()
      ensures Valid()
      ensures existingImages == RemoveIndex(old(existingImages), index) && newImages == old(newImages)
      ensures chosen == old(chosen) && error == old(error)
      ensures showCategoryDropdown == old(showCategoryDropdown) && searchValue == old(searchValue)
    {
      RemoveExistingKeepsAtMostOneMain(existingImages, newImages, index);
      existingImages := RemoveIndex(existingImages, index);
    }

    /** The handler reads `prev[index]`, so the index must be in range. */
    method RemoveNewImage(index: nat)
      modifies this
      requires Valid() && index < |newImages|
      ensures Valid()
      ensures newImages == Lists.RemoveAt(old(newImages), index) && existingImages == old(existingImages)
      ensures chosen == old(chosen) && error == old(error)
      ensures showCategoryDropdown == old(showCategoryDropdown) && searchValue == old(searchValue)
    {
      RemoveNewKeepsAtMostOneMain(existingImages, newImages, index);
      newImages := RemoveIndex(newImages, index);
    }

    method SetMainImage(index: nat, existing: bool)
      modifies this
      requires Valid()
      requires if existing then index < |existingImages| else index < |newImages|
      ensures Valid() && ExactlyOneMain(existingImages, newImages)
      ensures existing ==> existingImages == MainAmongExisting(old(existingImages), index)
                           && newImages == MainAmongNew(old(newImages), -1)
      ensures !existing ==> newImages == MainAmongNew(old(newImages), index)
                            && existingImages == MainAmongExisting(old(existingImages), -1)
      ensures chosen == old(chosen) && error == old(error)
      ensures showCategoryDropdown == old(showCategoryDropdown) && searchValue == old(searchValue)
    {
      SetMainExactlyOne(existingImages, newImages, index, existing);
      if existing {
        existingImages := MainAmongExisting(existingImages, index);
        newImages := MainAmongNew(newImages, -1);
      } else {
        newImages := MainAmongNew(newImages, index);
        existingImages := MainAmongExisting(existingImages, -1);
      }
    }

    /** Appends without a membership check. */
    method HandleCategorySelect(id: int)
      modifies this
      ensures chosen == old(chosen) + [id]
      ensures !showCategoryDropdown && searchValue == []
      ensures existingImages == old(existingImages) && newImages == old(newImages) && error == old(error)
    {
      chosen := chosen + [id];
      showCategoryDropdown := false;
      searchValue := [];
    }

    method RemoveCategoryId(id: int)
      modifies this
      ensures chosen == AddProducts.RemoveCategory(old(chosen), id)
      ensures existingImages == old(existingImages) && newImages == old(newImages) && error == old(error)
      ensures showCategoryDropdown == old(showCategoryDropdown) && searchValue == old(searchValue)
    {
      chosen := AddProducts.RemoveCategory(chosen, id);
    }

    /** `handleSubmit`'s image fields. The fallback marks the first existing image
        main through a shallow copy, so the form's own entry is changed too. The
        error is cleared, then set to `failure`, the message of a rejected PUT. */
    method Submit(failure: Option<string>) returns (fields: seq<EditField>)
      modifies this
      requires Valid()
      ensures fields == SubmitFields(old(existingImages), old(newImages))
      ensures error == failure.GetOr([])
      ensures newImages == old(newImages) && chosen == old(chosen)
      ensures showCategoryDropdown == old(showCategoryDropdown) && searchValue == old(searchValue)
      ensures !AnyExistingMain(old(existingImages)) && !AnyNewMain(old(newImages)) && |old(existingImages)| > 0
              ==> existingImages == old(existingImages)[0 := old(existingImages)[0].(isMain := true)]
      ensures AnyExistingMain(old(existingImages)) || AnyNewMain(old(newImages)) || |old(existingImages)| == 0
              ==> existingImages == old(existingImages)
      ensures Valid()
    {
      error := [];
      fields := SubmitImageFields(existingImages, newImages);
      if !AnyExistingMain(existingImages) && !AnyNewMain(newImages) && |existingImages| > 0 {
        existingImages := existingImages[0 := existingImages[0].(isMain := true)];
        assert AnyExistingMain(existingImages) by { assert existingImages[0].isMain; }
        forall i | 0 <= i < |existingImages| && existingImages[i].isMain ensures i == 0 {
        }
      }
      if failure.Some? {
        error := failure.value;
      }
    }
  }
}
