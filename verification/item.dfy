/** The rules of the Item entity: its attribute declarations, the default
    status, the hooks that schedule re-indexing of the owning shop and deletion
    of image files, and the public projection. */
module ItemModel {
  import opened JsValue
  import opened Schema
  import Projection

  const FOR_SELL: int := 1
  const NOT_FOR_SELL: int := 0

  /** Attributes `toJSON` never exposes. */
  const IGNORE_ATTRIBUTES: seq<string> := ["updatedAt", "createdAt"]

  const IGNORED: set<string> := set a | a in IGNORE_ATTRIBUTES

  /** The attribute declarations, in declaration order. */
  const ITEM_COLUMNS: seq<Column> := [
    Column("name", false, [Len(1, 50)], None),
    Column("description", true, [Len(1, 125)], None),
    Column("sort", false, [], None),
    Column("price", false, [Min(1)], None),
    Column("status", false, [], Some(Num(FOR_SELL))),
    Column("image", true, [], None),
    Column("imageFile", true, [], None),
    Column("quantity", true, [], None),
    Column("categoryId", false, [], None),
    Column("shopId", false, [], None)
  ]

  /** The e-mail rule handed to the validator for items. No item attribute
      declares `isEmail`, so the rule is never consulted. */
  predicate AnyString(s: string) { true }

  /** The names of the declared item attributes. */
  const ITEM_NAMES: set<string> := set c | c in ITEM_COLUMNS :: c.name

  /** The validation errors of an item instance; they only ever name a
      declared item attribute. */
  function ItemViolations(item: Record): (errs: set<Violation>)
    ensures forall e :: e in errs ==> e.attr in ITEM_NAMES
  {
    ViolationsNameDeclared(ITEM_COLUMNS, item, AnyString, ITEM_NAMES);
    Violations(ITEM_COLUMNS, item, AnyString)
  }

  /** What a valid item is, written out attribute by attribute. */
  predicate ValidItem(item: Record) {
    var name, description, price := Get(item, "name"), Get(item, "description"), Get(item, "price");
    && name.Str? && 1 <= |name.s| <= 50
    && (IsNullish(description) || (description.Str? && 1 <= |description.s| <= 125))
    && !IsNullish(Get(item, "sort"))
    && price.Num? && price.n >= 1
    && !IsNullish(Get(item, "status"))
    && !IsNullish(Get(item, "categoryId"))
    && !IsNullish(Get(item, "shopId"))
  }

  /** Every item attribute passes validation. */
  predicate AllColumnsOk(item: Record) {
    forall i :: 0 <= i < |ITEM_COLUMNS| ==> ColumnOk(ITEM_COLUMNS[i], item, AnyString)
  }

  lemma AllColumnsOkIff(item: Record)
    ensures AllColumnsOk(item) <==> ValidItem(item)
  {
    var cs := ITEM_COLUMNS;
    ColumnOkIff(cs[0], item, AnyString);
    ColumnOkIff(cs[1], item, AnyString);
    ColumnOkIff(cs[2], item, AnyString);
    ColumnOkIff(cs[3], item, AnyString);
    ColumnOkIff(cs[4], item, AnyString);
    ColumnOkIff(cs[5], item, AnyString);
    ColumnOkIff(cs[6], item, AnyString);
    ColumnOkIff(cs[7], item, AnyString);
    ColumnOkIff(cs[8], item, AnyString);
    ColumnOkIff(cs[9], item, AnyString);
    if ValidItem(item) {
      forall i | 0 <= i < |cs| ensures ColumnOk(cs[i], item, AnyString) {
        assert i in {0, 1, 2, 3, 4, 5, 6, 7, 8, 9};
      }
    }
  }

  /** The declared constraints accept exactly the valid items. */
  lemma ItemValidIff(item: Record)
    ensures ItemViolations(item) == {} <==> ValidItem(item)
  {
    NoViolationsIffEachColumn(ITEM_COLUMNS, item, AnyString);
    AllColumnsOkIff(item);
  }

  lemma {:induction false} NoDefaultsKeepAttrs(columns: seq<Column>, attrs: Record)
    requires forall i :: 0 <= i < |columns| ==> columns[i].default == None
    ensures ApplyDefaults(columns, attrs) == attrs
  {
    if columns != [] {
      NoDefaultsKeepAttrs(columns[1..], attrs);
    }
  }

  /** A declaration without a default adds nothing to the instance. */
  lemma NoDefaultStep(columns: seq<Column>, attrs: Record)
    requires columns != [] && columns[0].default == None
    ensures ApplyDefaults(columns, attrs) == ApplyDefaults(columns[1..], attrs)
  {
  }

  /** Of the item declarations only `status` has a default: filling in
      defaults sets a missing status to FOR_SELL and touches nothing else. */
  lemma ItemColumnsDefaults(attrs: Record)
    ensures Get(attrs, "status") == Undefined ==> ApplyDefaults(ITEM_COLUMNS, attrs) == attrs["status" := Num(FOR_SELL)]
    ensures Get(attrs, "status") != Undefined ==> ApplyDefaults(ITEM_COLUMNS, attrs) == attrs
  {
    var cs := ITEM_COLUMNS;
    NoDefaultsKeepAttrs(cs[5..], attrs);
    assert cs[4..][1..] == cs[5..];
    NoDefaultStep(cs[3..], attrs);
    assert cs[3..][1..] == cs[4..];
    NoDefaultStep(cs[2..], attrs);
    assert cs[2..][1..] == cs[3..];
    NoDefaultStep(cs[1..], attrs);
    assert cs[1..][1..] == cs[2..];
    NoDefaultStep(cs, attrs);
  }

  /** Building a new item from supplied attributes: a new item without a
      status gets FOR_SELL, and nothing else is filled in; a supplied status
      (even a null one) is kept as given. */
  function Build(attrs: Record): (item: Record)
    ensures Get(attrs, "status") == Undefined ==> item == attrs["status" := Num(FOR_SELL)]
    ensures Get(attrs, "status") != Undefined ==> item == attrs
  {
    ItemColumnsDefaults(attrs);
    ApplyDefaults(ITEM_COLUMNS, attrs)
  }

  /** The statuses an item may have; validation itself does not restrict the
      status to these. */
  predicate DeclaredStatus(status: Value) {
    status == Num(FOR_SELL) || status == Num(NOT_FOR_SELL)
  }

  /** A valid item whose status is neither FOR_SELL nor NOT_FOR_SELL. */
  const STATUS_TWO_ITEM: Record :=
    map["name" := Str("pen"), "sort" := Num(0), "price" := Num(1), "status" := Num(2),
        "categoryId" := Num(1), "shopId" := Num(1)]

  lemma StatusTwoItemValid()
    ensures ValidItem(STATUS_TWO_ITEM) && !DeclaredStatus(Get(STATUS_TWO_ITEM, "status"))
  {
  }

  /** The declarations admit a status that is neither FOR_SELL nor NOT_FOR_SELL. */
  lemma UndeclaredStatusIsValid()
    ensures exists item :: ItemViolations(item) == {} && !DeclaredStatus(Get(item, "status"))
  {
    StatusTwoItemValid();
    ItemValidIff(STATUS_TWO_ITEM);
  }

  /** A side effect a hook schedules on a foreign service. */
  datatype Effect =
    | IndexShop(shopId: Value)             // re-index the shop's search document
    | DeleteImages(versions: seq<Value>)   // delete the stored image versions

  /** After creation: re-index the item's own shop iff the item is for sale,
      and schedule nothing otherwise. */
  function AfterCreate(item: Record): (effects: seq<Effect>)
    ensures IndexShop(Get(item, "shopId")) in effects <==> Get(item, "status") == Num(FOR_SELL)
    ensures |effects| <= 1
    ensures forall e :: e in effects ==> e == IndexShop(Get(item, "shopId"))
    ensures Get(item, "status") == Num(NOT_FOR_SELL) ==> effects == []
  {
    if Get(item, "status") == Num(FOR_SELL) then [IndexShop(Get(item, "shopId"))] else []
  }

  /** After an update: always schedule exactly one re-index of the item's
      own shop. */
  function AfterUpdate(item: Record): (effects: seq<Effect>)
    ensures |effects| == 1
    ensures forall e :: e in effects <==> e == IndexShop(Get(item, "shopId"))
  {
    [IndexShop(Get(item, "shopId"))]
  }

  /** A new item created without a status is indexed right away. */
  lemma NewItemIndexedByDefault(attrs: Record)
    requires Get(attrs, "status") == Undefined
    ensures AfterCreate(Build(attrs)) == [IndexShop(Get(attrs, "shopId"))]
  {
  }

  /** The guard of image deletion on destroy: the image file is truthy and
      its `versions` property is an array. It holds exactly for an image file
      object whose `versions` is an array. */
  predicate HasImageVersions(item: Record)
    ensures HasImageVersions(item) <==>
      "imageFile" in item && item["imageFile"].Obj?
      && "versions" in item["imageFile"].fields && item["imageFile"].fields["versions"].Arr?
  {
    var imageFile := Get(item, "imageFile");
    Truthy(imageFile) && IsArray(Prop(imageFile, "versions"))
  }

  /** After destruction: delete the image versions when there are any, then
      re-index the shop, collecting both requests in order. */
  method AfterDestroy(item: Record) returns (promises: seq<Effect>)
    ensures 1 <= |promises| <= 2
    ensures promises[|promises| - 1] == IndexShop(Get(item, "shopId"))
    ensures |promises| == 2 <==> HasImageVersions(item)
    ensures |promises| == 2 ==> promises[0] == DeleteImages(Prop(Get(item, "imageFile"), "versions").items)
  {
    promises := [];
    var imageFile := Get(item, "imageFile");
    if Truthy(imageFile) && IsArray(Prop(imageFile, "versions")) {
      promises := promises + [DeleteImages(Prop(imageFile, "versions").items)];
    }
    promises := promises + [IndexShop(Get(item, "shopId"))];
  }

  /** The public representation: the item without its timestamps, with every
      other attribute as it is. */
  function PublicView(item: Record): (r: Record)
    ensures "updatedAt" !in r && "createdAt" !in r
    ensures forall k :: k in item && k !in IGNORED ==> k in r && r[k] == item[k]
    ensures r.Keys <= item.Keys
  {
    Projection.Omit(item, IGNORED)
  }

  /** The JSON form: delete each ignored attribute from a copy of the
      attribute dictionary. */
  method ToJSON(item: Record) returns (values: Record)
    ensures "updatedAt" !in values && "createdAt" !in values
    ensures forall k :: k in item && k != "updatedAt" && k != "createdAt" ==> k in values && values[k] == item[k]
    ensures values.Keys <= item.Keys
    ensures values == PublicView(item)
  {
    values := Projection.DeleteEach(item, IGNORE_ATTRIBUTES);
  }

  /** Projecting a projected item changes nothing. */
  lemma PublicViewIdempotent(item: Record)
    ensures PublicView(PublicView(item)) == PublicView(item)
  {
  }
}
