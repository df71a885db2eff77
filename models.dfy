/** The catalogue's records: products and the entities they point to, the
    product-creation form with its validation rules, the statistics record and
    the client-side image holder. */
module Models {
  import opened Common

  /** A product category (a row of the `categories` table). */
  datatype Categorie = Categorie(id: int, workspaceId: int, nom: string)

  /** A plastic material, with its cost per gram. */
  datatype Plastique = Plastique(id: int, workspaceId: int, nom: string, coutGramme: real)

  datatype Tag = Tag(id: int, workspaceId: int, nom: string)

  datatype Stock = Stock(id: int, workspaceId: int, typeStock: string)

  /** A catalogue product: its stored columns, six optional foreign keys and
      the six navigation objects those keys may be resolved to. */
  datatype Product = Product(
    id: int,
    workspaceId: int,
    nom: string,
    description: Option<string>,
    prix: Cents,
    isPublished: bool,
    createdAt: Timestamp,
    imageId: Option<int>,
    plastiqueId: Option<int>,
    categorieId: Option<int>,
    tagId: Option<int>,
    stockId: Option<int>,
    seoId: Option<int>,
    image: Option<ImageProduct>,
    plastique: Option<Plastique>,
    categorie: Option<Categorie>,
    tag: Option<Tag>,
    stock: Option<Stock>,
    seo: Option<Seo>)
  {
    /** None of the six navigation objects is attached. */
    predicate HasNoNavigation()
    {
      image.None? && plastique.None? && categorie.None? && tag.None? && stock.None? && seo.None?
    }

    /** The same product with its navigation objects cleared. */
    function WithoutNavigation(): (r: Product)
      ensures r.HasNoNavigation()
      ensures r.EditableFields() == EditableFields()
      ensures r.id == id && r.workspaceId == workspaceId && r.createdAt == createdAt
    {
      this.(image := None, plastique := None, categorie := None, tag := None, stock := None, seo := None)
    }

    /** The ten fields that the creation form carries and that an update overwrites. */
    function EditableFields(): ProductCreateDto
    {
      ProductCreateDto(nom, description, prix, isPublished, imageId, plastiqueId, categorieId, tagId, stockId, seoId)
    }

    /** The product with its ten editable fields taken from `d` and everything else kept. */
    function WithEditableFields(d: ProductCreateDto): (r: Product)
      ensures r.EditableFields() == d
      ensures r.id == id && r.workspaceId == workspaceId && r.createdAt == createdAt
      ensures r.image == image && r.plastique == plastique && r.categorie == categorie
      ensures r.tag == tag && r.stock == stock && r.seo == seo
    {
      this.(nom := d.nom, description := d.description, prix := d.prix, isPublished := d.isPublished,
            imageId := d.imageId, plastiqueId := d.plastiqueId, categorieId := d.categorieId,
            tagId := d.tagId, stockId := d.stockId, seoId := d.seoId)
    }
  }

  /** An image row: base64 data or a URL, the product it belongs to, if any. */
  datatype ImageProduct = ImageProduct(
    id: int,
    workspaceId: int,
    productId: Option<int>,
    imageBase64: Option<string>,
    createdAt: Timestamp,
    product: Option<Product>)

  /** The SEO metadata of a product. */
  datatype Seo = Seo(
    id: int,
    workspaceId: int,
    productId: Option<int>,
    titre: string,
    description: Option<string>,
    product: Option<Product>)

  /** A freshly constructed `Product`: `Id` 0, workspace 0, empty name, price 0,
      not published, `default(DateTime)`, no keys and no navigation objects. */
  const DefaultProduct: Product :=
    Product(0, 0, "", None, 0, false, 0,
            None, None, None, None, None, None,
            None, None, None, None, None, None)

  /** A `Product` as a mutable object: the storage behind the `Name` and
      `Price` aliases, which read and write `Nom` and `Prix`. */
  class ProductEntity {
    var id: int
    var workspaceId: int
    var nom: string
    var description: Option<string>
    var prix: Cents
    var isPublished: bool
    var createdAt: Timestamp
    var imageId: Option<int>
    var plastiqueId: Option<int>
    var categorieId: Option<int>
    var tagId: Option<int>
    var stockId: Option<int>
    var seoId: Option<int>
    var image: Option<ImageProduct>
    var plastique: Option<Plastique>
    var categorie: Option<Categorie>
    var tag: Option<Tag>
    var stock: Option<Stock>
    var seo: Option<Seo>

    /** The object's current field values. */
    function Value(): Product
      reads this
    {
      Product(id, workspaceId, nom, description, prix, isPublished, createdAt,
              imageId, plastiqueId, categorieId, tagId, stockId, seoId,
              image, plastique, categorie, tag, stock, seo)
    }

    /** `new Product()`: every field at its declared default. */
    constructor ()
      ensures Value() == DefaultProduct
    {
      id, workspaceId, nom, description, prix, isPublished, createdAt := 0, 0, "", None, 0, false, 0;
      imageId, plastiqueId, categorieId, tagId, stockId, seoId := None, None, None, None, None, None;
      image, plastique, categorie, tag, stock, seo := None, None, None, None, None, None;
    }

    /** The object that deserialising a received product produces. */
    constructor Deserialized(p: Product)
      ensures Value() == p
    {
      id, workspaceId, nom, description, prix, isPublished, createdAt :=
        p.id, p.workspaceId, p.nom, p.description, p.prix, p.isPublished, p.createdAt;
      imageId, plastiqueId, categorieId, tagId, stockId, seoId :=
        p.imageId, p.plastiqueId, p.categorieId, p.tagId, p.stockId, p.seoId;
      image, plastique, categorie, tag, stock, seo := p.image, p.plastique, p.categorie, p.tag, p.stock, p.seo;
    }

    /** Copies the ten editable fields of a form onto the object, one
        assignment per field, as both the create and the update paths do. */
    method CopyEditableFields(d: ProductCreateDto)
      modifies this
      ensures Value() == old(Value()).WithEditableFields(d)
    {
      CopyDetails(d);
      CopyImageMaterialCategoryKeys(d);
      CopyTagStockSeoKeys(d);
    }

    /** Name, description, price and publication flag from the form. */
    method CopyDetails(d: ProductCreateDto)
      modifies this
      ensures Value() == old(Value()).(nom := d.nom, description := d.description, prix := d.prix, isPublished := d.isPublished)
    {
      nom := d.nom;
      description := d.description;
      prix := d.prix;
      isPublished := d.isPublished;
    }

    /** The image, material and category keys from the form. */
    method CopyImageMaterialCategoryKeys(d: ProductCreateDto)
      modifies this
      ensures Value() == old(Value()).(imageId := d.imageId, plastiqueId := d.plastiqueId, categorieId := d.categorieId)
    {
      imageId := d.imageId;
      plastiqueId := d.plastiqueId;
      categorieId := d.categorieId;
    }

    /** The tag, stock and SEO keys from the form. */
    method CopyTagStockSeoKeys(d: ProductCreateDto)
      modifies this
      ensures Value() == old(Value()).(tagId := d.tagId, stockId := d.stockId, seoId := d.seoId)
    {
      tagId := d.tagId;
      stockId := d.stockId;
      seoId := d.seoId;
    }

    /** Sets the six navigation properties to null. */
    method ClearNavigation()
      modifies this
      ensures Value() == old(Value()).WithoutNavigation()
    {
      ClearImageMaterialCategory();
      ClearTagStockSeo();
    }

    /** Drops the attached image, material and category. */
    method ClearImageMaterialCategory()
      modifies this
      ensures Value() == old(Value()).(image := None, plastique := None, categorie := None)
    {
      image := None;
      plastique := None;
      categorie := None;
    }

    /** Drops the attached tag, stock and SEO record. */
    method ClearTagStockSeo()
      modifies this
      ensures Value() == old(Value()).(tag := None, stock := None, seo := None)
    {
      tag := None;
      stock := None;
      seo := None;
    }

    /** The `Name` getter. */
    function Name(): (r: string)
      reads this
      ensures r == Value().nom
    {
      nom
    }

    /** The `Name` setter: writes `Nom` and nothing else. */
    method SetName(value: string)
      modifies this
      ensures Value() == old(Value()).(nom := value)
      ensures Name() == value
    {
      nom := value;
    }

    /** The `Price` getter. */
    function Price(): (r: Cents)
      reads this
      ensures r == Value().prix
    {
      prix
    }

    /** The `Price` setter: writes `Prix` and nothing else. */
    method SetPrice(value: Cents)
      modifies this
      ensures Value() == old(Value()).(prix := value)
      ensures Price() == value
    {
      prix := value;
    }
  }

  /** The product creation and edit form (`ProductCreateDto`). */
  datatype ProductCreateDto = ProductCreateDto(
    nom: string,
    description: Option<string>,
    prix: Cents,
    isPublished: bool,
    imageId: Option<int>,
    plastiqueId: Option<int>,
    categorieId: Option<int>,
    tagId: Option<int>,
    stockId: Option<int>,
    seoId: Option<int>)

  /** A freshly constructed form: empty name, price 0, not published, no keys. */
  const DefaultCreateDto: ProductCreateDto :=
    ProductCreateDto("", None, 0, false, None, None, None, None, None, None)

  const NameMaxLength: nat := 100
  const DescriptionMaxLength: nat := 1000
  /** The price range [0.01, 999999.99], in cents. */
  const MinPriceCents: Cents := 1
  const MaxPriceCents: Cents := 99999999

  /** One failed validation attribute of the form. */
  datatype ValidationError = NameRequired | NameTooLong | DescriptionTooLong | PriceOutOfRange

  /** The form's data-annotation rules: a required name of at most 100
      characters, an optional description of at most 1000 characters and a
      price between 0.01 and 999999.99. */
  predicate IsValid(d: ProductCreateDto)
  {
    && !IsBlank(d.nom)
    && |d.nom| <= NameMaxLength
    && (d.description.Some? ==> |d.description.value| <= DescriptionMaxLength)
    && MinPriceCents <= d.prix <= MaxPriceCents
  }

  /** The failed rules, in the order the properties are declared. As the
      data-annotation validator does, a property whose `[Required]` rule
      fails is not checked against its other rules. */
  function Validate(d: ProductCreateDto): (errors: seq<ValidationError>)
    ensures errors == [] <==> IsValid(d)
    ensures NameRequired in errors <==> IsBlank(d.nom)
    ensures NameTooLong in errors <==> !IsBlank(d.nom) && |d.nom| > NameMaxLength
    ensures DescriptionTooLong in errors <==> d.description.Some? && |d.description.value| > DescriptionMaxLength
    ensures PriceOutOfRange in errors <==> !(MinPriceCents <= d.prix <= MaxPriceCents)
    ensures !(NameRequired in errors && NameTooLong in errors)
  {
    (if IsBlank(d.nom) then [NameRequired] else [])
    + (if !IsBlank(d.nom) && |d.nom| > NameMaxLength then [NameTooLong] else [])
    + (if d.description.Some? && |d.description.value| > DescriptionMaxLength then [DescriptionTooLong] else [])
    + (if d.prix < MinPriceCents || d.prix > MaxPriceCents then [PriceOutOfRange] else [])
  }

  /** The declared defaults: a new product has workspace 0, an empty name, is
      not published and has no keys and no navigation objects; a new form is
      not published, has no keys, and is refused for its empty name. */
  lemma Defaults()
    ensures DefaultProduct.workspaceId == 0 && DefaultProduct.nom == "" && !DefaultProduct.isPublished
    ensures DefaultProduct.HasNoNavigation()
    ensures DefaultProduct.EditableFields() == DefaultCreateDto
    ensures !DefaultCreateDto.isPublished && DefaultCreateDto.imageId.None? && DefaultCreateDto.plastiqueId.None?
    ensures DefaultCreateDto.categorieId.None? && DefaultCreateDto.tagId.None?
    ensures DefaultCreateDto.stockId.None? && DefaultCreateDto.seoId.None?
    ensures Validate(DefaultCreateDto) == [NameRequired, PriceOutOfRange]
  {
  }

  /** The statistics record of the catalogue. */
  datatype ProductStatistics = ProductStatistics(
    totalProducts: int,
    publishedProducts: int,
    draftProducts: int,
    averagePrice: real,
    minPrice: Cents,
    maxPrice: Cents)

  /** The client-side image holder (`ProductImage`), with empty strings by default. */
  datatype ProductImage = ProductImage(
    dataUrl: string,
    base64Data: string,
    fileName: string,
    fileSize: int,
    isPrimary: bool)
  {
    /** The `IsUrl` property: the data is an `http://` or `https://` address. */
    predicate IsUrl()
    {
      StartsWith(base64Data, "http://") || StartsWith(base64Data, "https://")
    }
  }

  const DefaultProductImage: ProductImage := ProductImage("", "", "", 0, false)
}
