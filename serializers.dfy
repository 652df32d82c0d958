/**
 * The REST serializers' own logic: the field validators, the derived name,
 * id and image-URL fields, and the partial update of a product. The request
 * in the serializer context is represented by its `build_absolute_uri`, when
 * there is a request at all.
 */
module Serializers {
  import opened Wrappers
  import opened Text
  import opened ProductImages
  import UserProfile

  // ---------------------------------------------------------------------
  // Validators
  // ---------------------------------------------------------------------

  const PriceNotPositive := "Price must be greater than zero"
  const StockNegative := "Stock cannot be negative"
  const PasswordMismatch := "Password fields didn't match."

  /** `validate_sale_price` on the float `sale_price` field. */
  function ValidateSalePrice(value: real): (r: Result<real, string>)
    ensures r.Success? <==> value > 0.0
    ensures r.Success? ==> r.value == value
    ensures r.Failure? ==> r.error == PriceNotPositive
  {
    if value <= 0.0 then Failure(PriceNotPositive) else Success(value)
  }

  /** `validate_stock`: the stock column is nullable. */
  function ValidateStock(value: Option<int>): (r: Result<Option<int>, string>)
    ensures r.Success? <==> value.None? || value.value >= 0
    ensures r.Success? ==> r.value == value
    ensures r.Failure? ==> r.error == StockNegative
  {
    if value.Some? && value.value < 0 then Failure(StockNegative) else Success(value)
  }

  /** The registration fields the cross-field check reads. */
  datatype RegisterAttrs = RegisterAttrs(
    email: string, username: string, password: string, password2: string,
    firstName: string, lastName: string, phoneNumber: string)

  /** `RegisterSerializer.validate`: the error is keyed by the `password` field. */
  function ValidateRegister(attrs: RegisterAttrs): (r: Result<RegisterAttrs, map<string, string>>)
    ensures r.Success? <==> attrs.password == attrs.password2
    ensures r.Success? ==> r.value == attrs
    ensures r.Failure? ==> r.error.Keys == {"password"} && r.error["password"] == PasswordMismatch
  {
    if attrs.password != attrs.password2 then Failure(map["password" := PasswordMismatch])
    else Success(attrs)
  }

  /** An accepted value is accepted again, unchanged: each validator is a filter. */
  lemma ValidatorsAreFilters(price: real, stock: Option<int>, attrs: RegisterAttrs)
    ensures ValidateSalePrice(price).Success? ==>
      ValidateSalePrice(ValidateSalePrice(price).value) == ValidateSalePrice(price)
    ensures ValidateStock(stock).Success? ==>
      ValidateStock(ValidateStock(stock).value) == ValidateStock(stock)
    ensures ValidateRegister(attrs).Success? ==>
      ValidateRegister(ValidateRegister(attrs).value) == ValidateRegister(attrs)
  {
  }

  // ---------------------------------------------------------------------
  // Names and ids
  // ---------------------------------------------------------------------

  datatype SellerRecord = SellerRecord(id: int, businessName: string)

  /** A user and the seller profile attached to it, if any. */
  datatype UserRecord = UserRecord(id: int, username: string, firstName: string, lastName: string,
                                   seller: Option<SellerRecord>)

  /** `get_seller_id`. */
  function SellerId(user: UserRecord): (r: Option<int>)
    ensures r.Some? <==> user.seller.Some?
    ensures r.Some? ==> r.value == user.seller.value.id
  {
    if user.seller.Some? then Some(user.seller.value.id) else None
  }

  /** `get_seller_name` of an order. */
  function SellerName(seller: Option<SellerRecord>): (r: string)
    ensures seller.None? ==> r == []
    ensures seller.Some? ==> r == seller.value.businessName
  {
    if seller.Some? then seller.value.businessName else []
  }

  /** `get_buyer_name`: the stripped "first last", or the username when that is blank. */
  function BuyerName(buyer: UserRecord): (r: string)
    ensures var full := Strip(buyer.firstName + " " + buyer.lastName);
      (full != [] ==> r == full) && (full == [] ==> r == buyer.username)
  {
    var full := Strip(buyer.firstName + " " + buyer.lastName);
    if full != [] then full else buyer.username
  }

  /** The name the server sends has no surrounding whitespace unless it is the
      username, and falls back to the username for blank names. */
  lemma BuyerNameProperties(buyer: UserRecord)
    ensures var r := BuyerName(buyer);
      r != buyer.username ==> r != [] && !IsSpace(Python, r[0]) && !IsSpace(Python, r[|r| - 1])
    ensures AllSpace(Python, buyer.firstName) && AllSpace(Python, buyer.lastName) ==> BuyerName(buyer) == buyer.username
  {
    var s := buyer.firstName + " " + buyer.lastName;
    var full := TrimBy(Python, s);
    assert BuyerName(buyer) == if full != [] then full else buyer.username;
    if full != [] {
      TrimmedEnds(Python, s);
    }
    if AllSpace(Python, buyer.firstName) && AllSpace(Python, buyer.lastName) {
      AllSpaceJoined(Python, buyer.firstName, buyer.lastName);
      TrimEmptyIff(Python, s);
      assert full == [];
    }
  }

  /** The server's buyer name is the name the profile page shows in its header,
      unless a name holds one of the characters Python and JavaScript classify
      differently. */
  lemma BuyerNameMatchesProfileHeader(buyer: UserRecord)
    requires SpacesAgree(buyer.firstName) && SpacesAgree(buyer.lastName)
    ensures BuyerName(buyer) == UserProfile.HeaderName(buyer.firstName, buyer.lastName, buyer.username)
  {
    var s := buyer.firstName + " " + buyer.lastName;
    assert SpacesAgree(s) by {
      forall i | 0 <= i < |s| ensures IsSpace(Ecma, s[i]) == IsSpace(Python, s[i]) {
        if i < |buyer.firstName| {
          assert s[i] == buyer.firstName[i];
        } else if i > |buyer.firstName| {
          assert s[i] == buyer.lastName[i - |buyer.firstName| - 1];
        }
      }
    }
    TrimAgreesWithStrip(s);
  }

  /** A first name that is only a byte order mark: blank to the profile page,
      but sent by the server as the name. */
  lemma BuyerNameKeepsByteOrderMark()
    ensures BuyerName(UserRecord(1, "ama", "\U{FEFF}", "", None)) == "\U{FEFF}"
    ensures UserProfile.HeaderName("\U{FEFF}", "", "ama") == "ama"
  {
    var s := "\U{FEFF}" + " " + "";
    assert s == "\U{FEFF} ";
    assert !IsSpace(Python, s[0]) && IsSpace(Python, s[1]);
    assert TrimStart(Python, s) == s;
    assert TrimEnd(Python, s[..1]) == s[..1];
    assert TrimEnd(Python, s) == TrimEnd(Python, s[..1]);
    assert AllSpace(Ecma, s) by {
      assert IsSpace(Ecma, s[0]) && IsSpace(Ecma, s[1]);
    }
    TrimEmptyIff(Ecma, s);
  }

  // ---------------------------------------------------------------------
  // Image URLs
  // ---------------------------------------------------------------------

  /** The `get_imageN_url` / `get_main_image_url` shape: a file and a request give
      the absolute URI; anything missing gives None. `request` is the context
      request's `build_absolute_uri`, when there is a request. */
  function ImageUrl(image: Option<string>, request: Option<string -> string>): (r: Option<string>)
    ensures r.Some? <==> Present(image) && request.Some?
    ensures r.Some? ==> r.value == request.value(image.value)
  {
    if Present(image) && request.Some? then Some(request.value(image.value)) else None
  }

  /** `get_profile_photo_url`: without a request the relative URL is returned. */
  function ProfilePhotoUrl(photo: Option<string>, request: Option<string -> string>): (r: Option<string>)
    ensures r.Some? <==> Present(photo)
    ensures Present(photo) && request.Some? ==> r == Some(request.value(photo.value))
    ensures Present(photo) && request.None? ==> r == photo
  {
    if !Present(photo) then None
    else if request.Some? then Some(request.value(photo.value))
    else photo
  }

  /** The two getters agree whenever there is a request; without one they differ
      exactly on a present file. */
  lemma PhotoAndImageGetters(file: Option<string>, request: Option<string -> string>)
    ensures request.Some? ==> ProfilePhotoUrl(file, request) == ImageUrl(file, request)
    ensures request.None? ==> (ProfilePhotoUrl(file, request) == ImageUrl(file, request) <==> !Present(file))
  {
  }

  /** The getters applied slot by slot. */
  function ImageUrls(slots: seq<Option<string>>, request: Option<string -> string>): (r: seq<Option<string>>)
    ensures |r| == |slots|
    ensures forall i :: 0 <= i < |slots| ==> r[i] == ImageUrl(slots[i], request)
  {
    seq(|slots|, i requires 0 <= i < |slots| => ImageUrl(slots[i], request))
  }

  /** The six URL fields of a product, main image first. */
  function ProductImageUrls(p: ImageSlots, request: Option<string -> string>): (r: seq<Option<string>>)
    ensures |r| == 6
  {
    ImageUrls(Slots(p), request)
  }

  /** The URLs that are present, in order. */
  function Values(s: seq<Option<string>>): (r: seq<string>)
    ensures |r| <= |s|
  {
    if s == [] then [] else (if s[0].Some? then [s[0].value] else []) + Values(s[1..])
  }

  function Mapped(urls: seq<string>, build: string -> string): (r: seq<string>)
    ensures |r| == |urls|
    ensures forall i :: 0 <= i < |urls| ==> r[i] == build(urls[i])
  {
    seq(|urls|, i requires 0 <= i < |urls| => build(urls[i]))
  }

  /** With a request, the URL fields carry exactly the stored images, made absolute
      and in slot order; without one every field is null. */
  lemma {:induction false} ImageUrlsCarryPresentImages(slots: seq<Option<string>>, build: string -> string)
    ensures Values(ImageUrls(slots, Some(build))) == Mapped(PresentUrls(slots), build)
    ensures forall i :: 0 <= i < |slots| ==> ImageUrls(slots, None)[i] == None
  {
    if slots != [] {
      ImageUrlsCarryPresentImages(slots[1..], build);
      var u := ImageUrls(slots, Some(build));
      assert u[1..] == ImageUrls(slots[1..], Some(build));
      var rest := PresentUrls(slots[1..]);
      if Present(slots[0]) {
        assert PresentUrls(slots) == [slots[0].value] + rest;
        assert Mapped(PresentUrls(slots), build) == [build(slots[0].value)] + Mapped(rest, build);
      } else {
        assert PresentUrls(slots) == rest;
      }
    }
  }

  /** A product's URL fields in display order are the gallery's URLs made absolute. */
  lemma ProductImageUrlsMatchGallery(p: ImageSlots, build: string -> string)
    ensures Values(ProductImageUrls(p, Some(build))) == Mapped(PresentUrls(Slots(p)), build)
  {
    ImageUrlsCarryPresentImages(Slots(p), build);
  }

  // ---------------------------------------------------------------------
  // ProductSerializer.update
  // ---------------------------------------------------------------------

  const CategoriesKey := "categories"

  /** An attribute value as the validated data carries it. */
  datatype Value = Str(s: string) | Int(i: int) | Decimal(d: real) | Bool(b: bool) | Null
    | Ids(ids: seq<int>)  // the primary keys a many-to-many field such as `categories` carries

  /** `validated_data.pop('categories', [])`: the category ids, none when absent. */
  function CategoryIds(validated: map<string, Value>): (r: seq<int>)
    ensures CategoriesKey !in validated ==> r == []
    ensures CategoriesKey in validated && validated[CategoriesKey].Ids? ==> r == validated[CategoriesKey].ids
  {
    if CategoriesKey in validated && validated[CategoriesKey].Ids? then validated[CategoriesKey].ids else []
  }

  /** The instance's attributes after setting the validated items in order,
      skipping `categories`. */
  function Applied(fields: map<string, Value>, items: seq<(string, Value)>): (r: map<string, Value>)
    ensures r.Keys == fields.Keys + (set i | 0 <= i < |items| && items[i].0 != CategoriesKey :: items[i].0)
  {
    if items == [] then fields
    else
      var before := Applied(fields, items[..|items| - 1]);
      var (attr, value) := items[|items| - 1];
      if attr != CategoriesKey then before[attr := value] else before
  }

  /** `categories` and every attribute absent from the validated data keep their value. */
  lemma {:induction false} AppliedKeeps(fields: map<string, Value>, items: seq<(string, Value)>, k: string)
    requires k in fields
    requires k == CategoriesKey || forall i :: 0 <= i < |items| ==> items[i].0 != k
    ensures Applied(fields, items)[k] == fields[k]
  {
    if items != [] {
      var init := items[..|items| - 1];
      assert k == CategoriesKey || forall i :: 0 <= i < |init| ==> init[i].0 != k by {
        assert forall i :: 0 <= i < |init| ==> init[i] == items[i];
      }
      AppliedKeeps(fields, init, k);
    }
  }

  /** Every other attribute takes the last value the validated data gives for it. */
  lemma {:induction false} AppliedSetsLast(fields: map<string, Value>, items: seq<(string, Value)>, i: int)
    requires 0 <= i < |items| && items[i].0 != CategoriesKey
    requires forall j :: i < j < |items| ==> items[j].0 != items[i].0
    ensures Applied(fields, items)[items[i].0] == items[i].1
  {
    var init := items[..|items| - 1];
    if i < |items| - 1 {
      assert init[i] == items[i];
      assert forall j :: i < j < |init| ==> init[j] == items[j];
      AppliedSetsLast(fields, init, i);
    }
  }

  /** A product row: its attributes, its categories relation and how often it
      was saved. */
  class ProductInstance {
    var fields: map<string, Value>
    var categories: seq<int>
    var saves: nat

    /** `create`: the categories are taken out of the validated data, the product
        is created from the rest with one save, and its categories are set when
        any were given (a new product has none before). */
    constructor Create(validated: map<string, Value>)
      ensures fields == validated - {CategoriesKey} && CategoriesKey !in fields
      ensures categories == CategoryIds(validated)
      ensures saves == 1
    {
      var categoriesData := CategoryIds(validated);
      fields := validated - {CategoriesKey};
      saves := 1;
      categories := [];
      if categoriesData != [] {
        categories := categoriesData;
      }
    }

    /** `update`: `setattr` for each validated item except `categories`, then one save. */
    method Update(validated: seq<(string, Value)>)
      modifies this
      ensures fields == Applied(old(fields), validated)
      ensures categories == old(categories)
      ensures saves == old(saves) + 1
    {
      var i := 0;
      while i < |validated|
        invariant 0 <= i <= |validated|
        invariant fields == Applied(old(fields), validated[..i])
        invariant saves == old(saves) && categories == old(categories)
      {
        var (attr, value) := validated[i];
        assert validated[..i + 1][..i] == validated[..i];
        if attr != CategoriesKey {
          fields := fields[attr := value];
        }
        i := i + 1;
      }
      assert validated[..i] == validated;
      saves := saves + 1;
    }
  }
}
