/**
 * The "add product" form of the seller dashboard: up to six images with one
 * of them the main image, the chosen categories, the category search box,
 * and the upload field names under which submit sends the image files.
 * A file is identified by a number; previews and the other form fields are
 * not part of this model.
 */
module AddProducts {
  import opened Wrappers
  import opened Text
  import Lists

  const MaxImages := 6

  const TooManyImages := "You can only upload up to 6 images"

  /** An image of the form: its file and whether it is the main image. */
  datatype UploadImage = UploadImage(file: nat, isMain: bool)

  datatype Category = Category(id: int, name: string)

  /** One file field of the multipart submission. */
  datatype Field = Field(name: string, file: nat)

  predicate IsMain(img: UploadImage) {
    img.isMain
  }

  function MainCount(images: seq<UploadImage>): nat {
    Lists.Count(images, IsMain)
  }

  /** A non-empty list has exactly one main image. */
  predicate OneMain(images: seq<UploadImage>) {
    images != [] ==> MainCount(images) == 1
  }

  /** The index of the main image when there is exactly one. */
  predicate MainAt(images: seq<UploadImage>, m: int) {
    0 <= m < |images| && images[m].isMain
    && forall i :: 0 <= i < |images| && i != m ==> !images[i].isMain
  }

  lemma {:induction false} MainCountZero(images: seq<UploadImage>)
    requires forall i :: 0 <= i < |images| ==> !images[i].isMain
    ensures MainCount(images) == 0
  {
    Lists.FilterNone(images, IsMain);
  }

  lemma {:induction false} MainCountOfMainAt(images: seq<UploadImage>, m: int)
    requires MainAt(images, m)
    ensures MainCount(images) == 1
  {
    assert images == images[..m] + [images[m]] + images[m + 1..];
    Lists.CountAppend(images[..m] + [images[m]], images[m + 1..], IsMain);
    Lists.CountAppend(images[..m], [images[m]], IsMain);
    MainCountZero(images[..m]);
    MainCountZero(images[m + 1..]);
  }

  /** Exactly one main image means a single index holds it. */
  lemma {:induction false} OneMainHasIndex(images: seq<UploadImage>)
    requires images != [] && MainCount(images) == 1
    ensures exists m :: MainAt(images, m)
  {
    if images[0].isMain {
      assert images == [images[0]] + images[1..];
      Lists.CountAppend([images[0]], images[1..], IsMain);
      Lists.CountZero(images[1..], IsMain);
      forall i | 1 <= i < |images| ensures !images[i].isMain {
        assert images[i] == images[1..][i - 1];
      }
      assert MainAt(images, 0);
    } else {
      assert images == [images[0]] + images[1..];
      Lists.CountAppend([images[0]], images[1..], IsMain);
      OneMainHasIndex(images[1..]);
      var m :| MainAt(images[1..], m);
      assert MainAt(images, m + 1);
    }
  }

  // ---------------------------------------------------------------------
  // Upload
  // ---------------------------------------------------------------------

  /** Some image is main whenever there is an image: what the form keeps as
      written, where a first batch of several files makes all of them main. */
  predicate HasMain(images: seq<UploadImage>) {
    images != [] ==> exists m :: 0 <= m < |images| && images[m].isMain
  }

  /** `handleImageUpload` as written: more than six images in total are refused
      with an error; otherwise the files are appended in order, each of them
      main exactly when the form had no image before the batch. */
  function UploadAsWritten(images: seq<UploadImage>, files: seq<nat>): (r: Result<seq<UploadImage>, string>)
    ensures r.Failure? <==> |images| + |files| > MaxImages
    ensures r.Failure? ==> r.error == TooManyImages
    ensures r.Success? ==>
      |r.value| == |images| + |files| && r.value[..|images|] == images
      && forall i :: 0 <= i < |files| ==> r.value[|images| + i] == UploadImage(files[i], images == [])
  {
    if |images| + |files| > MaxImages then Failure(TooManyImages)
    else Success(images + seq(|files|, i requires 0 <= i < |files| => UploadImage(files[i], |images| == 0)))
  }

  /** An accepted upload keeps the list within six images and keeps a main image. */
  lemma UploadAsWrittenKeepsMain(images: seq<UploadImage>, files: seq<nat>)
    requires HasMain(images)
    ensures UploadAsWritten(images, files).Success? ==>
      |UploadAsWritten(images, files).value| <= MaxImages && HasMain(UploadAsWritten(images, files).value)
  {
    var r := UploadAsWritten(images, files);
    if r.Success? && r.value != [] {
      if images == [] {
        assert r.value[0].isMain;
      } else {
        var m :| 0 <= m < |images| && images[m].isMain;
        assert r.value[m] == images[m];
      }
    }
  }

  /** Every file of a first batch is main, so a batch of two or more leaves the
      form with more than one main image. */
  lemma UploadAsWrittenFirstBatchAllMain(files: seq<nat>)
    requires UploadAsWritten([], files).Success?
    ensures MainCount(UploadAsWritten([], files).value) == |files|
    ensures |files| >= 2 ==> !OneMain(UploadAsWritten([], files).value)
  {
    var v := UploadAsWritten([], files).value;
    Lists.FilterAll(v, IsMain);
  }

  /** The upload with only the first file of a batch into an empty form made main. */
  function Upload(images: seq<UploadImage>, files: seq<nat>): (r: Result<seq<UploadImage>, string>)
    ensures r.Failure? <==> |images| + |files| > MaxImages
    ensures r.Failure? ==> r.error == TooManyImages
    ensures r.Success? ==>
      |r.value| == |images| + |files| && r.value[..|images|] == images
      && forall i :: 0 <= i < |files| ==>
           r.value[|images| + i] == UploadImage(files[i], images == [] && i == 0)
  {
    if |images| + |files| > MaxImages then Failure(TooManyImages)
    else Success(images + seq(|files|, i requires 0 <= i < |files| => UploadImage(files[i], images == [] && i == 0)))
  }

  /** An accepted upload keeps the list within six images and with one main image. */
  lemma UploadKeepsOneMain(images: seq<UploadImage>, files: seq<nat>)
    requires OneMain(images)
    ensures Upload(images, files).Success? ==>
      |Upload(images, files).value| <= MaxImages && OneMain(Upload(images, files).value)
  {
    var r := Upload(images, files);
    if r.Success? && r.value != [] {
      var v := r.value;
      if images == [] {
        assert MainAt(v, 0);
        MainCountOfMainAt(v, 0);
      } else {
        OneMainHasIndex(images);
        var m :| MainAt(images, m);
        assert v[m] == images[m];
        forall i | 0 <= i < |v| && i != m ensures !v[i].isMain {
          if i < |images| {
            assert v[i] == images[i];
          } else {
            assert v[i] == v[|images| + (i - |images|)];
          }
        }
        MainCountOfMainAt(v, m);
      }
    }
  }

  /** The corrected upload differs from the code as written only on a first
      batch of two or more files. */
  lemma UploadAgreesAsWrittenOutsideFirstBatch(images: seq<UploadImage>, files: seq<nat>)
    ensures images != [] || |files| <= 1 ==> Upload(images, files) == UploadAsWritten(images, files)
  {
    var a := Upload(images, files);
    var b := UploadAsWritten(images, files);
    if (images != [] || |files| <= 1) && a.Success? {
      assert a.value == b.value by {
        forall i | 0 <= i < |a.value| ensures a.value[i] == b.value[i] {
          if i < |images| {
            assert a.value[i] == a.value[..|images|][i] && b.value[i] == b.value[..|images|][i];
          } else {
            assert a.value[|images| + (i - |images|)] == b.value[|images| + (i - |images|)];
          }
        }
      }
    }
  }

  // ---------------------------------------------------------------------
  // Remove and choose the main image
  // ---------------------------------------------------------------------

  /** The list after removing image `index`; the first image takes over as main
      if the main one was removed. */
  function RemoveImageFrom(images: seq<UploadImage>, index: nat): (r: seq<UploadImage>)
    requires index < |images|
    ensures |r| == |images| - 1
  {
    var rest := Lists.RemoveAt(images, index);
    if images[index].isMain && rest != [] then rest[0 := rest[0].(isMain := true)] else rest
  }

  /** Removing keeps the other files in order and keeps one main image. */
  lemma RemoveImageKeepsOneMain(images: seq<UploadImage>, index: nat)
    requires index < |images| && OneMain(images)
    ensures OneMain(RemoveImageFrom(images, index))
    ensures forall i :: 0 <= i < |images| - 1 ==>
      RemoveImageFrom(images, index)[i].file == images[if i < index then i else i + 1].file
  {
    var r := RemoveImageFrom(images, index);
    if r != [] {
      OneMainHasIndex(images);
      var m :| MainAt(images, m);
      if m == index {
        assert MainAt(r, 0);
        MainCountOfMainAt(r, 0);
      } else {
        var m' := if m < index then m else m - 1;
        assert MainAt(r, m');
        MainCountOfMainAt(r, m');
      }
    }
  }

  /** Removing keeps a main image: the first image takes over when the main one
      goes, and another main image stays otherwise. */
  lemma RemoveImageKeepsMain(images: seq<UploadImage>, index: nat)
    requires index < |images| && HasMain(images)
    ensures HasMain(RemoveImageFrom(images, index))
  {
    var r := RemoveImageFrom(images, index);
    if r != [] {
      if images[index].isMain {
        assert r[0].isMain;
      } else {
        var m :| 0 <= m < |images| && images[m].isMain;
        var m' := if m < index then m else m - 1;
        assert r[m'] == images[m];
      }
    }
  }

  /** `setMainImage(index)`: image `index` becomes the only main image. */
  function SetMainImageIn(images: seq<UploadImage>, index: int): (r: seq<UploadImage>)
    ensures |r| == |images|
    ensures forall i :: 0 <= i < |images| ==> r[i] == images[i].(isMain := i == index)
  {
    seq(|images|, i requires 0 <= i < |images| => images[i].(isMain := i == index))
  }

  lemma SetMainImageExactlyOne(images: seq<UploadImage>, index: nat)
    requires index < |images|
    ensures MainAt(SetMainImageIn(images, index), index)
    ensures OneMain(SetMainImageIn(images, index))
  {
    MainCountOfMainAt(SetMainImageIn(images, index), index);
  }

  // ---------------------------------------------------------------------
  // Categories
  // ---------------------------------------------------------------------

  /** `handleCategorySelect`: an id is added only if it is not chosen yet. */
  function SelectCategory(chosen: seq<int>, id: int): (r: seq<int>)
    ensures id in chosen ==> r == chosen
    ensures id !in chosen ==> r == chosen + [id]
  {
    if id in chosen then chosen else chosen + [id]
  }

  function Id(x: int): int {
    x
  }

  /** `removeCategory`: every occurrence of the id goes. */
  function RemoveCategory(chosen: seq<int>, id: int): (r: seq<int>)
    ensures id !in r
    ensures forall x :: x in chosen && x != id ==> x in r
    ensures forall x :: x in r ==> x in chosen
  {
    Lists.WithoutKey(chosen, Id, id)
  }

  /** Selecting never introduces a duplicate, and removing an id just selected
      for the first time restores the list. */
  lemma CategorySelectRemove(chosen: seq<int>, id: int)
    requires Lists.Distinct(chosen)
    ensures Lists.Distinct(SelectCategory(chosen, id))
    ensures id !in chosen ==> RemoveCategory(SelectCategory(chosen, id), id) == chosen
  {
    if id !in chosen {
      Lists.WithoutKeyUndoesAppend(chosen, id, Id);
      Lists.WithoutKeyAbsent(chosen, Id, id);
    }
  }

  /** The categories whose name contains the search text, ignoring case. */
  function FilteredCategories(categories: seq<Category>, search: string): (r: seq<Category>)
    ensures forall i :: 0 <= i < |r| ==> ContainsIgnoringCase(r[i].name, search) && r[i] in categories
    ensures forall i :: 0 <= i < |categories| && ContainsIgnoringCase(categories[i].name, search) ==>
              categories[i] in r
  {
    Lists.Filter(categories, (c: Category) => ContainsIgnoringCase(c.name, search))
  }

  /** An empty search lists every category, in order. */
  lemma FilteredCategoriesEmptySearch(categories: seq<Category>)
    ensures FilteredCategories(categories, "") == categories
  {
    forall i | 0 <= i < |categories| ensures ContainsIgnoringCase(categories[i].name, "") {
      ContainsIgnoringCaseEmpty(categories[i].name);
    }
    Lists.FilterAll(categories, (c: Category) => ContainsIgnoringCase(c.name, ""));
  }

  // ---------------------------------------------------------------------
  // Submit
  // ---------------------------------------------------------------------

  function ImageFieldName(k: nat): string {
    "image" + NatToString(k)
  }

  /** No numbered field name collides with the main image's. */
  lemma ImageFieldNameNotMain(k: nat)
    ensures ImageFieldName(k) != "main_image"
  {
    assert ImageFieldName(k)[0] == 'i';
    assert "main_image"[0] == 'm';
  }

  /** The fields for images `i..` once `mainAdded` says whether a main image was sent. */
  function ImageFieldsFrom(images: seq<UploadImage>, i: nat, mainAdded: bool): seq<Field>
    requires i <= |images|
    decreases |images| - i
  {
    if i == |images| then FallbackField(images, mainAdded)
    else [ImageField(images[i], i, mainAdded)] + ImageFieldsFrom(images, i + 1, mainAdded || images[i].isMain)
  }

  /** The field image `i` is sent under: a main image as `main_image`, the others
      numbered from 1, or from 0 once a main image was sent before them. */
  function ImageField(image: UploadImage, i: nat, mainAdded: bool): Field {
    if image.isMain then Field("main_image", image.file)
    else Field(ImageFieldName(if mainAdded then i else i + 1), image.file)
  }

  /** Without a main image the first image is sent again as `main_image`. */
  function FallbackField(images: seq<UploadImage>, mainAdded: bool): seq<Field> {
    if !mainAdded && |images| > 0 then [Field("main_image", images[0].file)] else []
  }

  /** The file fields of the submission, in the order they are appended. */
  function ImageFields(images: seq<UploadImage>): seq<Field> {
    ImageFieldsFrom(images, 0, false)
  }

  /** The loop over the images in `handleSubmit`. */
  method SubmitImageFields(images: seq<UploadImage>) returns (fields: seq<Field>)
    ensures fields == ImageFields(images)
  {
    fields := [];
    var mainImageAdded := false;
    var index := 0;
    while index < |images|
      invariant 0 <= index <= |images|
      invariant fields + ImageFieldsFrom(images, index, mainImageAdded) == ImageFields(images)
    {
      var image := images[index];
      ghost var wasAdded := mainImageAdded;
      var field;
      if image.isMain {
        field := Field("main_image", image.file);
        mainImageAdded := true;
      } else {
        var imageIndex := if mainImageAdded then index else index + 1;
        field := Field(ImageFieldName(imageIndex), image.file);
      }
      assert field == ImageField(image, index, wasAdded);
      ghost var prev := fields;
      assert ImageFieldsFrom(images, index, wasAdded) == [field] + ImageFieldsFrom(images, index + 1, mainImageAdded);
      fields := fields + [field];
      assert prev + ([field] + ImageFieldsFrom(images, index + 1, mainImageAdded))
        == fields + ImageFieldsFrom(images, index + 1, mainImageAdded);
      index := index + 1;
    }
    if !mainImageAdded && |images| > 0 {
      fields := fields + [Field("main_image", images[0].file)];
    }
  }

  /** The name image `i` is sent under when the main image is at `m`. */
  function ExpectedName(i: nat, m: nat): string {
    if i == m then "main_image" else ImageFieldName(if i < m then i + 1 else i)
  }

  /** One step of the loop under a single main image at `m`. */
  lemma ImageFieldsFromStep(images: seq<UploadImage>, m: nat, i: nat)
    requires MainAt(images, m) && i < |images|
    ensures ImageFieldsFrom(images, i, m < i)
      == [Field(ExpectedName(i, m), images[i].file)] + ImageFieldsFrom(images, i + 1, m < i + 1)
  {
    if images[i].isMain {
      assert i == m;
    } else {
      assert i != m && (m < i + 1) == (m < i);
    }
  }

  lemma {:induction false} ImageFieldsFromOneMain(images: seq<UploadImage>, m: nat, i: nat)
    requires MainAt(images, m) && i <= |images|
    ensures |ImageFieldsFrom(images, i, m < i)| == |images| - i
    ensures forall k :: i <= k < |images| ==>
      ImageFieldsFrom(images, i, m < i)[k - i] == Field(ExpectedName(k, m), images[k].file)
    decreases |images| - i
  {
    if i < |images| {
      ImageFieldsFromOneMain(images, m, i + 1);
      var rest := ImageFieldsFrom(images, i + 1, m < i + 1);
      var head := Field(ExpectedName(i, m), images[i].file);
      ImageFieldsFromStep(images, m, i);
      forall k | i <= k < |images|
        ensures ([head] + rest)[k - i] == Field(ExpectedName(k, m), images[k].file)
      {
        if k > i {
          assert ([head] + rest)[k - i] == rest[k - (i + 1)];
        }
      }
    }
  }

  /** With one main image every image is sent once: the main one as `main_image`,
      the others as image1, image2, ... in list order. */
  lemma ImageFieldsOneMain(images: seq<UploadImage>, m: nat)
    requires MainAt(images, m)
    ensures |ImageFields(images)| == |images|
    ensures forall k :: 0 <= k < |images| ==> ImageFields(images)[k] == Field(ExpectedName(k, m), images[k].file)
  {
    ImageFieldsFromOneMain(images, m, 0);
  }

  /** Under one main image the field names are pairwise different. */
  lemma ImageFieldNamesDistinct(images: seq<UploadImage>, m: nat)
    requires MainAt(images, m)
    ensures |ImageFields(images)| == |images|
    ensures forall j, k :: 0 <= j < k < |images| ==> ImageFields(images)[j].name != ImageFields(images)[k].name
  {
    ImageFieldsOneMain(images, m);
    forall j, k | 0 <= j < k < |images|
      ensures ExpectedName(j, m) != ExpectedName(k, m)
    {
      var a := if j < m then j + 1 else j;
      var b := if k < m then k + 1 else k;
      if j != m && k != m {
        NatToStringInjective(a, b);
        assert ImageFieldName(a)[5..] == NatToString(a);
        assert ImageFieldName(b)[5..] == NatToString(b);
      } else {
        var other := if j == m then b else a;
        assert ImageFieldName(other)[0] == 'i';
        assert "main_image"[0] == 'm';
      }
    }
  }

  lemma {:induction false} ImageFieldsFromAllMain(images: seq<UploadImage>, i: nat, mainAdded: bool)
    requires i <= |images| && (mainAdded || i < |images|)
    requires forall k :: 0 <= k < |images| ==> images[k].isMain
    ensures |ImageFieldsFrom(images, i, mainAdded)| == |images| - i
    ensures forall k :: i <= k < |images| ==>
      ImageFieldsFrom(images, i, mainAdded)[k - i] == Field("main_image", images[k].file)
    decreases |images| - i
  {
    if i < |images| {
      ImageFieldsFromAllMain(images, i + 1, true);
      var rest := ImageFieldsFrom(images, i + 1, true);
      var r := ImageFieldsFrom(images, i, mainAdded);
      assert images[i].isMain;
      assert r == [Field("main_image", images[i].file)] + rest;
      forall k | i < k < |images|
        ensures r[k - i] == Field("main_image", images[k].file)
      {
        assert r[k - i] == rest[k - (i + 1)];
      }
    }
  }

  /** The files of a first batch all go out under the one name `main_image` and
      none as `image<k>`, so a server keeping one file per name keeps only one. */
  lemma SubmitAfterBatchUploadRepeatsMainImage(files: seq<nat>)
    requires UploadAsWritten([], files).Success?
    ensures |ImageFields(UploadAsWritten([], files).value)| == |files|
    ensures forall k :: 0 <= k < |files| ==>
      ImageFields(UploadAsWritten([], files).value)[k] == Field("main_image", files[k])
  {
    var v := UploadAsWritten([], files).value;
    if files != [] {
      ImageFieldsFromAllMain(v, 0, false);
    }
  }

  /** Until a main image has been sent, the remaining fields still hold one:
      a later main image's, or the first image sent again. */
  lemma {:induction false} ImageFieldsFromHasMain(images: seq<UploadImage>, i: nat)
    requires images != [] && i <= |images|
    ensures exists k ::
      0 <= k < |ImageFieldsFrom(images, i, false)| && ImageFieldsFrom(images, i, false)[k].name == "main_image"
    decreases |images| - i
  {
    var fs := ImageFieldsFrom(images, i, false);
    if i == |images| {
      assert fs[0].name == "main_image";
    } else if images[i].isMain {
      assert fs[0].name == "main_image";
    } else {
      ImageFieldsFromHasMain(images, i + 1);
      var rest := ImageFieldsFrom(images, i + 1, false);
      var k :| 0 <= k < |rest| && rest[k].name == "main_image";
      assert fs[k + 1] == rest[k];
    }
  }

  /** `disabled={loading || images.length === 0 || categories.length === 0}`. */
  predicate CanSubmit(loading: bool, images: seq<UploadImage>, chosen: seq<int>) {
    !loading && images != [] && chosen != []
  }

  /** Whatever the form holds when submit is enabled sends a `main_image` field
      and at least one category. */
  lemma CanSubmitSendsMainImage(loading: bool, images: seq<UploadImage>, chosen: seq<int>)
    requires CanSubmit(loading, images, chosen)
    ensures chosen != []
    ensures exists k :: 0 <= k < |ImageFields(images)| && ImageFields(images)[k].name == "main_image"
  {
    ImageFieldsFromHasMain(images, 0);
    var k :| 0 <= k < |ImageFieldsFrom(images, 0, false)| && ImageFieldsFrom(images, 0, false)[k].name == "main_image";
    assert ImageFields(images)[k].name == "main_image";
  }

  // ---------------------------------------------------------------------
  // The form
  // ---------------------------------------------------------------------

  class AddProductForm {
    var images: seq<UploadImage>
    var error: string
    var chosen: seq<int>
    var showCategoryDropdown: bool
    var searchValue: string

    /** At most six images, a main one among them, and no category chosen twice. */
    predicate Valid()
      reads this
    {
      |images| <= MaxImages && HasMain(images) && Lists.Distinct(chosen)
    }

    constructor ()
      ensures images == [] && error == [] && chosen == [] && !showCategoryDropdown && searchValue == []
      ensures Valid()
    {
      images := [];
      error := [];
      chosen := [];
      showCategoryDropdown := false;
      searchValue := [];
    }

    method HandleImageUpload(files: seq<nat>)
      modifies this
      requires Valid()
      ensures Valid()
      ensures UploadAsWritten(old(images), files).Failure? ==> images == old(images) && error == TooManyImages
      ensures UploadAsWritten(old(images), files).Success? ==>
        images == UploadAsWritten(old(images), files).value && error == []
      ensures chosen == old(chosen) && showCategoryDropdown == old(showCategoryDropdown) && searchValue == old(searchValue)
    {
      var r := UploadAsWritten(images, files);
      UploadAsWrittenKeepsMain(images, files);
      if r.Failure? {
        error := r.error;
        return;
      }
      images := r.value;
      error := [];
    }

    /** Copy, splice out `index`, and promote the new first image if the main one went. */
    method RemoveImage(index: nat)
      modifies this
      requires Valid() && index < |images|
      ensures Valid()
      ensures images == RemoveImageFrom(old(images), index)
      ensures chosen == old(chosen) && error == old(error)
      ensures showCategoryDropdown == old(showCategoryDropdown) && searchValue == old(searchValue)
    {
      RemoveImageKeepsMain(images, index);
      var wasMain := images[index].isMain;
      var newImages := images[..index] + images[index + 1..];
      if wasMain && |newImages| > 0 {
        newImages := newImages[0 := newImages[0].(isMain := true)];
      }
      images := newImages;
    }

    method SetMainImage(index: nat)
      modifies this
      requires Valid() && index < |images|
      ensures Valid()
      ensures images == SetMainImageIn(old(images), index)
      ensures chosen == old(chosen) && error == old(error)
      ensures showCategoryDropdown == old(showCategoryDropdown) && searchValue == old(searchValue)
    {
      SetMainImageExactlyOne(images, index);
      images := SetMainImageIn(images, index);
    }

    method HandleCategorySelect(id: int)
      modifies this
      requires Valid()
      ensures Valid()
      ensures chosen == SelectCategory(old(chosen), id)
      ensures !showCategoryDropdown && searchValue == []
      ensures images == old(images) && error == old(error)
    {
      CategorySelectRemove(chosen, id);
      chosen := SelectCategory(chosen, id);
      showCategoryDropdown := false;
      searchValue := [];
    }

    method RemoveCategoryId(id: int)
      modifies this
      requires Valid()
      ensures Valid()
      ensures chosen == RemoveCategory(old(chosen), id)
      ensures images == old(images) && error == old(error)
      ensures showCategoryDropdown == old(showCategoryDropdown) && searchValue == old(searchValue)
    {
      var r := RemoveCategory(chosen, id);
      Lists.WithoutKeyOrder(chosen, Id, id);
      SubsequenceDistinct(r, chosen);
      chosen := r;
    }
  }

  lemma {:induction false} SubsequenceDistinct(a: seq<int>, b: seq<int>)
    requires Lists.IsSubsequence(a, b) && Lists.Distinct(b)
    ensures Lists.Distinct(a)
  {
    if a != [] && b != [] {
      if a[0] == b[0] {
        assert Lists.IsSubsequence(a[1..], b[1..]);
        SubsequenceDistinct(a[1..], b[1..]);
        forall k | 1 <= k < |a| ensures a[k] != a[0] {
          assert a[k] == a[1..][k - 1];
          SubsequenceMember(a[1..], b[1..], k - 1);
        }
      } else {
        SubsequenceDistinct(a, b[1..]);
      }
    }
  }

  lemma {:induction false} SubsequenceMember(a: seq<int>, b: seq<int>, k: nat)
    requires Lists.IsSubsequence(a, b) && k < |a|
    ensures a[k] in b
  {
    if a[0] == b[0] {
      if k > 0 {
        SubsequenceMember(a[1..], b[1..], k - 1);
      }
    } else {
      SubsequenceMember(a, b[1..], k);
    }
  }
}
